/** The sender's side of the magnetometer protocol: reports that carry either sensor, both, or none, with unchanged fields
    left out by the input core. */
module MagneticCodec {
  import opened InputEvents
  import opened PacketTimestamp
  import opened RawSample
  import opened Stream
  import opened Magnetic

  /** A sample, what is kept of it, and whether an UPDATE event goes with it. */
  datatype Sent = Sent(raw: Raw, keep: Keep, update: bool)

  datatype Part = None | Some(sent: Sent)

  datatype Report = Report(field: Part, orientation: Part) {
    function At(j: int): Part { if j == MAGNETIC_FIELD then field else orientation }
  }

  /** The samples sent last, which the input core compares with. */
  datatype Memory = Memory(field: Raw, orientation: Raw) {
    function At(j: int): Raw { if j == MAGNETIC_FIELD then field else orientation }
  }

  function Recall(was: Raw, p: Part): Raw { if p.None? then was else p.sent.raw }

  function After(was: Memory, r: Report): Memory {
    Memory(Recall(was.field, r.field), Recall(was.orientation, r.orientation))
  }

  /** The event that carries a field of a slot. */
  function Event(j: int, f: Field, v: int): InputEvent {
    var field := j == MAGNETIC_FIELD;
    match f
    case X => InputEvent(EV_ABS, if field then ABS_X else ABS_RX, v)
    case Y => InputEvent(EV_ABS, if field then ABS_Y else ABS_RY, v)
    case Z => InputEvent(EV_ABS, if field then ABS_Z else ABS_RZ, v)
    case Status => InputEvent(EV_ABS, if field then ABS_WHEEL else ABS_THROTTLE, v)
    case Update => InputEvent(EV_REL, if field then REL_X else REL_RX, v)
    case Hi => InputEvent(EV_REL, if field then REL_HWHEEL else REL_WHEEL, v)
    case Lo => InputEvent(EV_REL, if field then REL_DIAL else REL_MISC, v)
  }

  function Optional(j: int, f: Field, v: int, goes: bool): seq<InputEvent> {
    if goes then [Event(j, f, v)] else []
  }

  /** At least one data field or an UPDATE goes through. */
  predicate Announced(was: Raw, s: Sent) {
    s.update || SendsX(was, s.raw, s.keep) || SendsY(was, s.raw, s.keep) || SendsZ(was, s.raw, s.keep)
    || SendsStatus(was, s.raw, s.keep)
  }

  function Body(was: Raw, s: Sent, j: int): seq<InputEvent> {
    var r, k := s.raw, s.keep;
    Optional(j, Update, 1, s.update) + Optional(j, X, r.x, SendsX(was, r, k)) + Optional(j, Y, r.y, SendsY(was, r, k))
    + Optional(j, Z, r.z, SendsZ(was, r, k)) + Optional(j, Status, r.status, SendsStatus(was, r, k))
  }

  function Events(was: Raw, p: Part, j: int): seq<InputEvent> {
    if p.None? then [] else
    var ts := p.sent.raw.timestamp;
    Body(was, p.sent, j) + [Event(j, Hi, HiWord(ts))] + [Event(j, Lo, LoWord(ts))]
  }

  const SYN := InputEvent(EV_SYN, 0, 0)

  function EncodeReport(was: Memory, r: Report): seq<InputEvent> {
    Events(was.field, r.field, MAGNETIC_FIELD) + Events(was.orientation, r.orientation, ORIENTATION) + [SYN]
  }

  function Send(): (Memory, Report) -> Outcome<Memory, InputEvent> {
    (was: Memory, r: Report) => Outcome(After(was, r), EncodeReport(was, r))
  }

  function Encode(was: Memory, rs: seq<Report>): Outcome<Memory, InputEvent> {
    Run(Send(), was, rs)
  }

  /** What of a slot the output depends on, besides the events. */
  datatype Setting = Setting(div: int, window: int)
  datatype Settings = Settings(field: Setting, orientation: Setting)

  function SettingOf(s: Slot): Setting { Setting(s.div, s.enabledTime) }
  function SettingsOf(s: Slots): Settings { Settings(SettingOf(s.field), SettingOf(s.orientation)) }

  /** A sample comes out once, scaled by its own sensor's divisor, if and only if it is newer than that sensor's window and
      something besides its timestamp went through. */
  function Expected(at: Setting, j: int, was: Raw, p: Part): seq<SensorEvent> {
    if p.Some? && p.sent.raw.timestamp > at.window && Announced(was, p.sent)
    then [Reading(ID_MAGNETIC + j, Taken(at.div, p.sent.raw))] else []
  }

  function Expect(at: Settings): (Memory, Report) -> Outcome<Memory, SensorEvent> {
    (was: Memory, r: Report) =>
      Outcome(After(was, r), Expected(at.field, 0, was.field, r.field)
                             + Expected(at.orientation, 1, was.orientation, r.orientation))
  }

  function AllExpected(at: Settings, was: Memory, rs: seq<Report>): Outcome<Memory, SensorEvent> {
    Run(Expect(at), was, rs)
  }

  ghost predicate InRange(p: Part) { p.Some? ==> IsInt64(p.sent.raw.timestamp) }

  /** The slot's pending fields are those of raw sample `r`. */
  ghost predicate Holds(s: Slot, r: Raw) { Carries(s.sample, s.div, r) }

  /** Every field that the part leaves out is pending in the slot already. */
  ghost predicate Covers(s: Slot, was: Raw, p: Part) {
    p.Some? ==> FillsIn(s.sample, s.div, was, p.sent.raw, p.sent.keep)
  }

  // ---- One report ----

  function StoreIf(s: Slot, f: Field, v: int, goes: bool): Slot { if goes then Store(s, f, v) else s }

  /** One more event of slot `j`, if it goes through, stores its field there. */
  lemma {:induction false} EventDecodes(s: Slots, es: seq<InputEvent>, slot: Slot, j: int, f: Field, v: int,
        goes: bool) returns (next: Slot)
    requires 0 <= j < 2 && Run(Step(), s, es) == Outcome(s.With(j, slot), [])
    ensures next == StoreIf(slot, f, v, goes)
    ensures Run(Step(), s, es + Optional(j, f, v, goes)) == Outcome(s.With(j, next), [])
  {
    next := StoreIf(slot, f, v, goes);
    if goes {
      RunOne(Step(), s, es, Event(j, f, v));
    } else {
      assert es + [] == es;
    }
  }

  /** A slot after its part of a report: complete, under the new timestamp, and due if something was announced. */
  function Loaded(s: Slot, was: Raw, p: Part): Slot {
    if p.None? then s else
    s.(due := s.due || Announced(was, p.sent), flag := ALL_COMPLETE, sample := Taken(s.div, p.sent.raw))
  }

  function StoreBody(s: Slot, was: Raw, q: Sent): Slot {
    var s1 := StoreIf(s, Update, 1, q.update);
    var s2 := StoreIf(s1, X, q.raw.x, SendsX(was, q.raw, q.keep));
    var s3 := StoreIf(s2, Y, q.raw.y, SendsY(was, q.raw, q.keep));
    var s4 := StoreIf(s3, Z, q.raw.z, SendsZ(was, q.raw, q.keep));
    StoreIf(s4, Status, q.raw.status, SendsStatus(was, q.raw, q.keep))
  }

  lemma {:induction false} BodyDecodes(s: Slots, was: Raw, q: Sent, j: int)
    requires 0 <= j < 2
    ensures Run(Step(), s, Body(was, q, j)) == Outcome(s.With(j, StoreBody(s.At(j), was, q)), [])
  {
    var r, e := q.raw, Optional(j, Update, 1, q.update);
    assert [] + e == e;
    var t := EventDecodes(s, [], s.At(j), j, Update, 1, q.update);
    t := EventDecodes(s, e, t, j, X, r.x, SendsX(was, q.raw, q.keep));
    e := e + Optional(j, X, r.x, SendsX(was, q.raw, q.keep));
    t := EventDecodes(s, e, t, j, Y, r.y, SendsY(was, q.raw, q.keep));
    e := e + Optional(j, Y, r.y, SendsY(was, q.raw, q.keep));
    t := EventDecodes(s, e, t, j, Z, r.z, SendsZ(was, q.raw, q.keep));
    e := e + Optional(j, Z, r.z, SendsZ(was, q.raw, q.keep));
    t := EventDecodes(s, e, t, j, Status, r.status, SendsStatus(was, q.raw, q.keep));
  }

  /** The data fields of a part, sent or pending already. */
  lemma {:induction false} BodyStores(s: Slot, was: Raw, q: Sent)
    requires Covers(s, was, Some(q))
    ensures var t := StoreBody(s, was, q);
            t == s.(due := s.due || Announced(was, q), flag := t.flag,
                    sample := Taken(s.div, q.raw).(timestamp := s.sample.timestamp))
  {
  }

  /** A part fills its own slot completely, whatever else was pending there, and leaves the other slot alone. */
  lemma {:induction false} PartDecodes(s: Slots, was: Raw, p: Part, j: int)
    requires 0 <= j < 2 && InRange(p) && Covers(s.At(j), was, p)
    ensures Run(Step(), s, Events(was, p, j)) == Outcome(s.With(j, Loaded(s.At(j), was, p)), [])
  {
    if p.Some? {
      var body, ts := Body(was, p.sent, j), p.sent.raw.timestamp;
      BodyDecodes(s, was, p.sent, j);
      var t := EventDecodes(s, body, StoreBody(s.At(j), was, p.sent), j, Hi, HiWord(ts), true);
      t := EventDecodes(s, body + [Event(j, Hi, HiWord(ts))], t, j, Lo, LoWord(ts), true);
      BodyStores(s.At(j), was, p.sent);
      MergeRebuilds(s.At(j).sample.timestamp, ts);
    }
  }

  /** A slot's turn after its part. */
  lemma {:induction false} PartTurn(s: Slot, was: Raw, p: Part, j: int)
    requires !s.due
    ensures var t := Turn(Loaded(s, was, p), j);
            t.out == Expected(SettingOf(s), j, was, p) && !t.state.due && SettingOf(t.state) == SettingOf(s)
            && (if p.None? then t.state == s else Holds(t.state, p.sent.raw))
  {
  }

  lemma {:induction false} ReportDecodes(s: Slots, was: Memory, r: Report)
    requires s.Idle() && InRange(r.field) && InRange(r.orientation)
    requires Covers(s.field, was.field, r.field) && Covers(s.orientation, was.orientation, r.orientation)
    ensures var t := Run(Step(), s, EncodeReport(was, r));
            && t.out == Expect(SettingsOf(s))(was, r).out
            && t.state.Idle() && SettingsOf(t.state) == SettingsOf(s)
            && (if r.field.None? then t.state.field == s.field else Holds(t.state.field, r.field.sent.raw))
            && (if r.orientation.None? then t.state.orientation == s.orientation
                else Holds(t.state.orientation, r.orientation.sent.raw))
  {
    var a, b := Events(was.field, r.field, MAGNETIC_FIELD), Events(was.orientation, r.orientation, ORIENTATION);
    var s1 := s.(field := Loaded(s.field, was.field, r.field));
    var s2 := s1.(orientation := Loaded(s.orientation, was.orientation, r.orientation));
    assert Run(Step(), s, a + b) == Outcome(s2, []) by {
      PartDecodes(s, was.field, r.field, MAGNETIC_FIELD);
      PartDecodes(s1, was.orientation, r.orientation, ORIENTATION);
      RunConcat(Step(), s, a, b);
    }
    assert Run(Step(), s, EncodeReport(was, r)) == OnSyn(s2) by {
      RunOne(Step(), s, a + b, SYN);
      assert [] + OnSyn(s2).out == OnSyn(s2).out;
    }
    PartTurn(s.field, was.field, r.field, MAGNETIC_FIELD);
    PartTurn(s.orientation, was.orientation, r.orientation, ORIENTATION);
  }

  // ---- Any list of reports ----

  /** Report `i` is the first that carries sensor `j`. */
  ghost predicate First(rs: seq<Report>, i: nat, j: int) {
    i < |rs| && rs[i].At(j).Some? && forall k :: 0 <= k < i ==> rs[k].At(j).None?
  }

  /** Whatever the first part of sensor `j` leaves out is pending. */
  ghost predicate Ready(s: Slot, was: Raw, rs: seq<Report>, j: int) {
    forall i: nat :: First(rs, i, j) ==> Covers(s, was, rs[i].At(j))
  }

  lemma {:induction false} StillReady(s: Slot, was: Raw, rs: seq<Report>, j: int, t: Slot)
    requires rs != [] && Ready(s, was, rs, j) && t.div == s.div
    requires if rs[0].At(j).None? then t == s else Holds(t, rs[0].At(j).sent.raw)
    ensures Ready(t, Recall(was, rs[0].At(j)), rs[1..], j)
  {
    forall i: nat | First(rs[1..], i, j) ensures Covers(t, Recall(was, rs[0].At(j)), rs[1..][i].At(j)) {
      if rs[0].At(j).None? {
        assert First(rs, i + 1, j) by {
          assert forall k :: 0 < k < i + 1 ==> rs[k] == rs[1..][k - 1];
        }
      }
    }
  }

  ghost predicate AllReady(s: Slots, was: Memory, rs: seq<Report>) {
    Ready(s.field, was.field, rs, MAGNETIC_FIELD) && Ready(s.orientation, was.orientation, rs, ORIENTATION)
  }

  lemma {:induction false} FirstReport(s: Slots, was: Memory, rs: seq<Report>)
    requires rs != [] && s.Idle() && AllReady(s, was, rs) && InRange(rs[0].field) && InRange(rs[0].orientation)
    ensures var t := Run(Step(), s, EncodeReport(was, rs[0]));
            && t.out == Expect(SettingsOf(s))(was, rs[0]).out
            && t.state.Idle() && SettingsOf(t.state) == SettingsOf(s) && AllReady(t.state, After(was, rs[0]), rs[1..])
  {
    var r := rs[0];
    if r.field.Some? { assert First(rs, 0, MAGNETIC_FIELD); }
    if r.orientation.Some? { assert First(rs, 0, ORIENTATION); }
    ReportDecodes(s, was, r);
    var t := Run(Step(), s, EncodeReport(was, r)).state;
    StillReady(s.field, was.field, rs, MAGNETIC_FIELD, t.field);
    StillReady(s.orientation, was.orientation, rs, ORIENTATION, t.orientation);
  }

  /** Demultiplexing round trip: any list of reports, whichever unchanged fields are left out, decodes to exactly the samples
      of both sensors that are past their windows and announced, field before orientation, each with its own divisor. */
  lemma {:induction false} RoundTrip(s: Slots, was: Memory, rs: seq<Report>)
    requires s.Idle() && AllReady(s, was, rs)
    requires forall i :: 0 <= i < |rs| ==> InRange(rs[i].field) && InRange(rs[i].orientation)
    ensures var t := Run(Step(), s, Encode(was, rs).out);
            t.out == AllExpected(SettingsOf(s), was, rs).out && t.state.Idle() && SettingsOf(t.state) == SettingsOf(s)
    decreases |rs|
  {
    if rs != [] {
      FirstReport(s, was, rs);
      RoundTrip(Run(Step(), s, EncodeReport(was, rs[0])).state, After(was, rs[0]), rs[1..]);
      Split(s, was, rs[0], rs[1..]);
      assert rs == [rs[0]] + rs[1..];
    }
  }

  lemma {:induction false} Split(s: Slots, was: Memory, r: Report, rest: seq<Report>)
    ensures var t := Run(Step(), s, EncodeReport(was, r));
            var u := Run(Step(), t.state, Encode(After(was, r), rest).out);
            Run(Step(), s, Encode(was, [r] + rest).out) == Outcome(u.state, t.out + u.out)
    ensures var e := Expect(SettingsOf(s));
            AllExpected(SettingsOf(s), was, [r] + rest).out
            == e(was, r).out + AllExpected(SettingsOf(s), After(was, r), rest).out
  {
    RunSingle(Send(), was, r);
    RunConcat(Send(), was, [r], rest);
    RunConcat(Step(), s, EncodeReport(was, r), Encode(After(was, r), rest).out);
    RunSingle(Expect(SettingsOf(s)), was, r);
    RunConcat(Expect(SettingsOf(s)), was, [r], rest);
  }

  /** In particular from the start: a driver of any divisors, just made and with any windows set. */
  lemma {:induction false} FirstSession(at: Settings, rs: seq<Report>)
    requires forall i :: 0 <= i < |rs| ==> InRange(rs[i].field) && InRange(rs[i].orientation)
    ensures var made := Fresh(at.field.div, at.orientation.div);
            var s := Slots(made.field.(enabledTime := at.field.window), made.orientation.(enabledTime := at.orientation.window));
            Run(Step(), s, Encode(Memory(ZERO, ZERO), rs).out).out == AllExpected(at, Memory(ZERO, ZERO), rs).out
  {
    var made := Fresh(at.field.div, at.orientation.div);
    var s := Slots(made.field.(enabledTime := at.field.window), made.orientation.(enabledTime := at.orientation.window));
    RoundTrip(s, Memory(ZERO, ZERO), rs);
  }

  /** What the condition shuts out. Timestamp halves do not mark a slot due, so whatever they say nothing comes out. */
  lemma {:induction false} TimestampAloneIsLost(s: Slots, j: int, hi: int, lo: int)
    requires 0 <= j < 2 && s.Idle()
    ensures Run(Step(), s, [Event(j, Hi, hi)] + [Event(j, Lo, lo)] + [SYN]).out == []
  {
    assert [] + [Event(j, Hi, hi)] == [Event(j, Hi, hi)];
    var t := EventDecodes(s, [], s.At(j), j, Hi, hi, true);
    t := EventDecodes(s, [Event(j, Hi, hi)], t, j, Lo, lo, true);
    RunOne(Step(), s, [Event(j, Hi, hi)] + [Event(j, Lo, lo)], SYN);
    assert s.With(j, t).Idle() && OnSyn(s.With(j, t)).out == [];
  }

  /** So of two equal samples, sent without UPDATE by an input core that drops unchanged fields, the second is lost
      however new it is. */
  lemma {:induction false} EqualSampleIsLost(s: Slots, was: Memory, raw: Raw, later: int, none: Keep)
    requires s.Idle() && IsInt64(raw.timestamp) && IsInt64(later) && s.field.enabledTime < raw.timestamp < later
    requires none == Keep(false, false, false, false)
    ensures var all := Report(Some(Sent(raw, Keep(true, true, true, true), false)), None);
            var again := Report(Some(Sent(raw.(timestamp := later), none, false)), None);
            Run(Step(), s, Encode(was, [all] + [again]).out).out == [Reading(ID_MAGNETIC, Taken(s.field.div, raw))]
  {
    var all := Report(Some(Sent(raw, Keep(true, true, true, true), false)), None);
    var again := Report(Some(Sent(raw.(timestamp := later), none, false)), None);
    var rs, at := [all] + [again], SettingsOf(s);
    assert rs[0] == all;
    assert forall i: nat :: First(rs, i, MAGNETIC_FIELD) ==> i == 0;
    RoundTrip(s, was, rs);
    RunSingle(Expect(at), was, all);
    RunOne(Expect(at), was, [all], again);
    assert After(was, all).field == raw && !Announced(raw, again.field.sent);
    assert Expected(at.field, 0, raw, again.field) == [];
    assert Expect(at)(After(was, all), again).out == [];
    assert Expect(at)(was, all).out == [Reading(ID_MAGNETIC, Taken(s.field.div, raw))];
  }
}
