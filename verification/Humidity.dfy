/** The humidity driver: like the legacy one it makes samples up, but only recent ones, and from the first sample on. */
module Humidity {
  import opened InputEvents
  import opened BackDating
  import opened EventRing
  import opened Stream

  const RECENT := 450000000
  const RING_SIZE := 32

  /** How many samples are made up: the whole delays since the last stamp, when fewer than 100, less those too old. */
  function MadeUp(last: int, delay: int, time: int): (n: nat)
    requires delay > 0
  {
    var n, recent := Whole(time - last, delay), Whole(RECENT - 1, delay);
    if !(1 <= n < 100) then 0 else if n <= recent then n else recent
  }

  function Full(last: int, delay: int, time: int): (ts: seq<int>)
    requires delay > 0
  {
    Filled(time, delay, MadeUp(last, delay, time))
  }

  /** A stamp is recent enough exactly when it is among the last `MadeUp` ones. */
  lemma {:induction false} RecentIsSuffix(last: int, delay: int, time: int, i: int)
    requires delay > 0 && last <= time && 1 <= Whole(time - last, delay) < 100 && 0 <= i < Whole(time - last, delay)
    ensures var n := Whole(time - last, delay);
            (n - i) * delay < RECENT <==> n - i <= MadeUp(last, delay, time)
  {
    AtMost(Whole(time - last, delay) - i, delay, RECENT - 1);
  }

  /** A reading's stamps never decrease, never precede the last one, end at the clock, and reach back less than 450 ms. */
  lemma {:induction false} FullIsOrdered(last: int, delay: int, time: int)
    requires delay > 0 && last <= time
    ensures Sorted(Full(last, delay, time))
    ensures forall i :: 0 <= i < |Full(last, delay, time)| ==>
      last <= Full(last, delay, time)[i] <= time && time - Full(last, delay, time)[i] < RECENT
  {
    var m := MadeUp(last, delay, time);
    FilledLies(time, delay, m);
    AtMost(m, delay, time - last);
    AtMost(m, delay, RECENT - 1);
  }

  /** A reading's stamps written out: one delay apart up to the clock, as many as whole delays passed since the last stamp and
      reach back less than 450 ms, if at least 1 and fewer than 100 delays passed; otherwise the clock alone. */
  lemma {:induction false} FullIsExactly(last: int, delay: int, time: int)
    requires delay > 0 && last <= time
    ensures var ts := Full(last, delay, time);
            && |ts| > 0 && (forall i :: 0 <= i < |ts| ==> ts[i] == time - (|ts| - 1 - i) * delay)
            && if delay <= time - last < 100 * delay
               then forall m: nat :: m <= |ts| - 1 <==> m * delay <= time - last && m * delay < 450000000
               else |ts| == 1
  {
    var n, ts := MadeUp(last, delay, time), Full(last, delay, time);
    forall i | 0 <= i < |ts| ensures ts[i] == time - (|ts| - 1 - i) * delay {
      FilledAt(time, delay, n, i);
    }
    AtMost(1, delay, time - last);
    AtMost(100, delay, time - last);
    if delay <= time - last < 100 * delay {
      forall m: nat ensures m <= n <==> m * delay <= time - last && m * delay < 450000000 {
        AtMost(m, delay, time - last);
        AtMost(m, delay, RECENT - 1);
      }
    }
  }

  /** When nothing missed is too old, the first of them follows the last stamp within a delay. */
  lemma {:induction false} FullFollows(last: int, delay: int, time: int)
    requires delay > 0 && 0 <= time - last < RECENT && Whole(time - last, delay) < 100
    ensures Full(last, delay, time)[0] - last < delay
  {
    var n := Whole(time - last, delay);
    WholeIsFloor(time - last, delay);
    AtMost(n, delay, RECENT - 1);
    FilledLies(time, delay, n);
  }

  function Back(m: int, delay: int): int { m * delay }

  /** Between 1 and 99 delays were missed, and some whole number of them reaches back further than stamp `p`, by less than
      450 ms, and not past the last stamp known. */
  ghost predicate ReachesPast(last: int, delay: int, time: int, p: int) {
    delay <= time - last < 100 * delay
    && exists m :: Back(m, delay) <= time - last && time - p < Back(m, delay) < RECENT
  }

  /** Exactly when a reading is back-dated past an earlier stamp `p`. */
  lemma {:induction false} BackDatedPast(last: int, delay: int, time: int, p: int)
    requires delay > 0 && last <= time && p <= time
    ensures Full(last, delay, time)[0] < p <==> ReachesPast(last, delay, time, p)
  {
    var made := MadeUp(last, delay, time);
    FilledLies(time, delay, made);
    assert Full(last, delay, time)[0] == time - Back(made, delay);
    AtMost(1, delay, time - last);
    AtMost(100, delay, time - last);
    if made > 0 {
      AtMost(made, delay, time - last);
      AtMost(made, delay, RECENT - 1);
      assert Back(made, delay) <= time - last && Back(made, delay) < RECENT;
    }
    if ReachesPast(last, delay, time, p) {
      var m :| Back(m, delay) <= time - last && time - p < Back(m, delay) < RECENT;
      AtMost(m, delay, time - last);
      AtMost(m, delay, RECENT - 1);
      Order(made, 0, made - m, delay);
    }
  }

  lemma {:induction false} TurnInOrder(stamps: seq<int>, last: int, delay: int, time: int, count: nat)
    requires Sorted(stamps) && (stamps != [] ==> stamps[|stamps| - 1] <= last) && delay > 0 && last <= time && count > 0
    ensures var out := Cut(Full(last, delay, time), count);
            0 < |out| <= count && Sorted(stamps + out) && out[|out| - 1] <= time
  {
    FullIsOrdered(last, delay, time);
    SortedCut(Full(last, delay, time), count);
    SortedAppend(stamps, Cut(Full(last, delay, time), count));
  }

  lemma {:induction false} TurnIsDense(before: seq<int>, last: int, delay: int, time: int, count: nat)
    requires delay > 0 && last <= time && count > 0
    ensures var out := Cut(Full(last, delay, time), count);
            && (forall i :: 0 <= i < |out| ==> 0 <= time - out[i] < RECENT)
            && Evenly(out, delay)
            && (before != [] && before[|before| - 1] == last && time - last < RECENT && Whole(time - last, delay) < 100
                ==> StepsWithin(before + out, |before| - 1, delay))
  {
    FullIsOrdered(last, delay, time);
    FilledLies(time, delay, MadeUp(last, delay, time));
    EvenSteps(Full(last, delay, time), delay, delay, count);
    if before != [] && before[|before| - 1] == last && time - last < RECENT && Whole(time - last, delay) < 100 {
      FullFollows(last, delay, time);
      StepsJoin(before, Cut(Full(last, delay, time), count), delay);
    }
  }

  lemma {:induction false} TurnJoins(log: seq<int>, last: int, delay: int, time: int, count: nat)
    requires delay > 0 && last <= time && count > 0
    ensures log != [] && log[|log| - 1] <= time && Sorted(log) ==>
              (Sorted(log + Cut(Full(last, delay, time), count)) <==> !ReachesPast(last, delay, time, log[|log| - 1]))
  {
    if log != [] && log[|log| - 1] <= time && Sorted(log) {
      FullIsOrdered(last, delay, time);
      SortedCut(Full(last, delay, time), count);
      BackDatedPast(last, delay, time, log[|log| - 1]);
      SortedJoin(log, Cut(Full(last, delay, time), count));
    }
  }

  // ---- A run of SYNs ----

  ghost predicate EndsAt(s: seq<int>, time: int) { s != [] && s[|s| - 1] == time }

  /** What a SYN works on: the last stamp and the budget. */
  datatype Desk = Desk(last: int, budget: nat)

  /** The settings a SYN goes by. */
  datatype Setting = Setting(on: bool, window: int, delay: int)

  /** One SYN at `time`. */
  function OneSyn(d: Desk, at: Setting, time: int): Outcome<Desk, int>
    requires at.delay > 0
  {
    if d.budget == 0 then Outcome(d, [])
    else if !at.on then Outcome(d.(last := time), [])
    else if time < at.window then Outcome(Desk(time, d.budget - 1), [])
    else var out := Cut(Full(d.last, at.delay, time), d.budget);
      Outcome(Desk(out[|out| - 1], d.budget - |out|), out)
  }

  /** What a SYN costs and leaves, case by case: nothing happens without budget; off, only the last stamp moves; settling, one
      event is charged though none comes out; and then the reading's stamps come out, as many as are paid for. */
  lemma {:induction false} SynExactly(d: Desk, at: Setting, time: int)
    requires at.delay > 0 && d.last <= time
    ensures var r, ts := OneSyn(d, at, time), Full(d.last, at.delay, time);
            if d.budget == 0 then r.out == [] && r.state == d
            else if !at.on then r.out == [] && r.state == Desk(time, d.budget)
            else if time < at.window then r.out == [] && r.state == Desk(time, d.budget - 1)
            else
              && r.out != [] && r.out <= ts && r.state == Desk(r.out[|r.out| - 1], d.budget - |r.out|)
              && (if |ts| <= d.budget then r.out[|r.out| - 1] == time && |r.out| == |ts| else r.state.budget == 0)
  {
    FullIsExactly(d.last, at.delay, time);
  }

  /** How what a SYN puts out lies. Every stamp reaches back less than 450 ms; they are one delay apart up to the reading; when
      nothing missed is too old, the session goes on in steps of at most one delay; and a log of all sessions, in order
      so far, goes out of order exactly when the reading is back-dated past its last stamp. */
  ghost predicate Lies(stamps: seq<int>, log: seq<int>, last: int, delay: int, time: int, out: seq<int>)
    requires delay > 0
  {
    && (forall i :: 0 <= i < |out| ==> 0 <= time - out[i] < 450000000)
    && Evenly(out, delay)
    && (out != [] && EndsAt(stamps, last) && time - last < 450000000 && Whole(time - last, delay) < 100 ==>
          StepsWithin(stamps + out, |stamps| - 1, delay))
    && (out != [] && log != [] && log[|log| - 1] <= time && Sorted(log) ==>
          (Sorted(log + out) <==> !ReachesPast(last, delay, time, log[|log| - 1])))
  }

  lemma {:induction false} SynLies(stamps: seq<int>, log: seq<int>, d: Desk, at: Setting, time: int)
    requires at.delay > 0 && d.last <= time
    ensures Lies(stamps, log, d.last, at.delay, time, OneSyn(d, at, time).out)
  {
    if OneSyn(d, at, time).out != [] {
      TurnIsDense(stamps, d.last, at.delay, time, d.budget);
      TurnJoins(log, d.last, at.delay, time, d.budget);
    }
  }

  /** The SYNs `t0` up to `t1`, one after the other. */
  function SynRun(d: Desk, at: Setting, clock: nat -> int, t0: nat, t1: nat): Outcome<Desk, int>
    requires at.delay > 0 && t0 <= t1
    decreases t1 - t0
  {
    if t0 == t1 then Outcome(d, []) else
    var r := SynRun(d, at, clock, t0, t1 - 1);
    var t := OneSyn(r.state, at, clock(t1 - 1));
    Outcome(t.state, r.out + t.out)
  }

  /** A run that leaves budget ends with its last real reading, if the sensor is on and settled by then; and nothing comes
      out while the sensor is off, or before it has settled. */
  lemma {:induction false} RunEndsWithReading(d: Desk, at: Setting, clock: nat -> int, t0: nat, t1: nat)
    requires at.delay > 0 && t0 <= t1 && Monotone(clock)
    ensures var r := SynRun(d, at, clock, t0, t1);
            && (r.state.budget > 0 && t0 < t1 && at.on && clock(t1 - 1) >= at.window ==>
                  EndsAt(r.out, clock(t1 - 1)))
            && (t0 < t1 && (!at.on || clock(t1 - 1) < at.window) ==> r.out == [])
    decreases t1 - t0
  {
    if t0 < t1 {
      RunEndsWithReading(d, at, clock, t0, t1 - 1);
      var r := SynRun(d, at, clock, t0, t1 - 1);
      assert t0 < t1 - 1 ==> clock(t1 - 2) <= clock(t1 - 1);
    }
  }

  class HumiditySensor {
    const clock: nat -> int
    const ring: InputEventCircularReader
    var enabled: bool
    var enabledTime: int
    var delay: int
    var lastTs: int
    var ticks: nat

    ghost var stamps: seq<int>     // emitted since the sensor was last enabled
    ghost var log: seq<int>        // emitted over all sessions

    /** Over every run, the stamps of one enable session never decrease; and while the sensor is on, the last stamp known
        is the one emitted last. `now` is the latest clock reading. */
    ghost predicate InOrder(now: int)
      reads this
    {
      && lastTs <= now
      && Sorted(stamps) && (stamps != [] ==> stamps[|stamps| - 1] <= lastTs)
      && (enabled && stamps != [] ==> stamps[|stamps| - 1] == lastTs && enabledTime <= now)
      && (log != [] ==> log[|log| - 1] <= now)
    }

    ghost predicate Valid()
      reads this, ring, ring.buffer
    {
      Monotone(clock) && InOrder(Latest(clock, ticks)) && ring.Valid()
    }

    constructor (clock: nat -> int)
      requires Monotone(clock)
      ensures Valid() && fresh(ring) && fresh(ring.buffer) && this.clock == clock && ring.Contents() == []
      ensures !enabled && lastTs == 0 && delay == 0 && ticks == 0 && stamps == [] && log == []
    {
      this.clock := clock;
      ring := new InputEventCircularReader(RING_SIZE);
      enabled, enabledTime, delay, lastTs, ticks := false, 0, 0, 0, 0;
      stamps, log := [], [];
    }

    method Enable(on: bool, attrOpens: bool, now: int) returns (r: int)
      requires Valid()
      modifies this`enabled, this`enabledTime, this`lastTs, this`stamps
      ensures Valid() && r == if attrOpens then 0 else -1
      ensures enabled == if attrOpens then on else old(enabled)
      ensures if attrOpens && on then enabledTime == now + 350000000 && lastTs == 0 && stamps == []
              else enabledTime == old(enabledTime) && lastTs == old(lastTs) && stamps == old(stamps)
    {
      if !attrOpens {
        return -1;
      }
      enabled := on;
      if on {
        enabledTime, lastTs := now + IGNORE_EVENT_TIME, 0;
        stamps := [];
      }
      return 0;
    }

    method SetDelay(ns: int, attrOpens: bool) returns (r: int)
      requires Valid()
      modifies this`delay
      ensures Valid() && delay == ns && r == if attrOpens then 0 else -1
    {
      delay := ns;
      return if attrOpens then 0 else -1;
    }

    /** The samples made up before a reading: the loop walks over all that are missing and skips the old ones. */
    method MakeUp(time: int, count: nat) returns (out: seq<int>)
      requires delay > 0 && lastTs <= time && count > 0
      ensures out == Cut(Fabricated(time, delay, MadeUp(lastTs, delay, time)), count)
    {
      out := [];
      var loops := (time - lastTs) / delay;
      WholeIsFloor(time - lastTs, delay);
      if 1 <= loops < 100 {
        ghost var m := MadeUp(lastTs, delay, time);
        ghost var all := Fabricated(time, delay, m);
        var i := 0;
        while i < loops
          invariant 0 <= i <= loops && |out| < count
          invariant out == if i <= loops - m then [] else all[..i - (loops - m)]
        {
          RecentIsSuffix(lastTs, delay, time, i);
          var ts := time - (loops - i) * delay;
          if time - ts < RECENT {
            FabricatedAt(time, delay, m, i - (loops - m));
            out := out + [ts];
            if |out| == count {
              assert out == all[..count];
              return;
            }
          }
          i := i + 1;
        }
        assert out == all;
      }
    }

    /** The samples made up, then the reading itself if budget is left; the reading is charged later. */
    method EmitDue(time: int, count: nat) returns (out: seq<int>, left: nat)
      requires delay > 0 && lastTs <= time && count > 0
      ensures out == Cut(Full(lastTs, delay, time), count) && out != []
      ensures if left == 0 then |out| == count else left == count - |out| + 1
    {
      out := MakeUp(time, count);
      left := count - |out|;
      if left != 0 {
        out := out + [time];
      }
    }

    method Deliver(time: int, count: nat) returns (out: seq<int>, left: nat)
      requires delay > 0 && lastTs <= time && count > 0
      requires Sorted(stamps) && (stamps != [] ==> stamps[|stamps| - 1] <= lastTs)
      modifies this`lastTs, this`stamps, this`log
      ensures out == Cut(Full(old(lastTs), delay, time), count) && stamps == old(stamps) + out && log == old(log) + out
      ensures if left == 0 then |out| == count else left == count - |out| + 1
      ensures Sorted(stamps) && stamps != [] && stamps[|stamps| - 1] == lastTs <= time
      ensures out != [] && lastTs == out[|out| - 1] == log[|log| - 1]
    {
      TurnInOrder(stamps, lastTs, delay, time, count);
      out, left := EmitDue(time, count);
      stamps, log := stamps + out, log + out;
      lastTs := out[|out| - 1];
    }

    ghost function Settings(): Setting
      reads this
    {
      Setting(enabled, enabledTime, delay)
    }

    /** An enabled sensor past its settling time emits what is due, as far as the budget goes; inside the settling time a
        reading costs budget without being emitted. */
    method Tick(time: int, count: nat) returns (out: seq<int>, left: nat)
      requires InOrder(time) && count > 0 && delay > 0
      modifies this`lastTs, this`stamps, this`log
      ensures InOrder(time) && stamps == old(stamps) + out && log == old(log) + out
      ensures Outcome(Desk(lastTs, left), out) == OneSyn(Desk(old(lastTs), count), Settings(), time)
    {
      out, left := [], count;
      if enabled && time >= enabledTime {
        out, left := Deliver(time, count);
      } else {
        lastTs := time;
      }
      if enabled && left != 0 {
        left := left - 1;
      }
    }

    method React(time: int, count: nat) returns (out: seq<int>, left: nat)
      requires InOrder(time) && count > 0 && delay > 0
      modifies this`lastTs, this`stamps, this`log
      ensures InOrder(time) && stamps == old(stamps) + out && log == old(log) + out && |out| + left <= count
      ensures Outcome(Desk(lastTs, left), out) == OneSyn(Desk(old(lastTs), count), Settings(), time)
      ensures Lies(old(stamps), old(log), old(lastTs), delay, time, out)
    {
      ghost var d, at, s, l := Desk(lastTs, count), Settings(), stamps, log;
      out, left := Tick(time, count);
      SynLies(s, l, d, at, time);
    }

    /** A SYN: the clock is read once, and what is due comes out. */
    method Syn(count: nat) returns (out: seq<int>, left: nat)
      requires Monotone(clock) && InOrder(Latest(clock, ticks)) && count > 0 && delay > 0
      modifies this`lastTs, this`ticks, this`stamps, this`log
      ensures InOrder(Latest(clock, ticks)) && ticks == old(ticks) + 1
      ensures stamps == old(stamps) + out && log == old(log) + out && |out| + left <= count
      ensures Outcome(Desk(lastTs, left), out) == OneSyn(Desk(old(lastTs), count), Settings(), clock(old(ticks)))
      ensures Lies(old(stamps), old(log), old(lastTs), delay, clock(old(ticks)), out)
    {
      var time := clock(ticks);
      ticks := ticks + 1;
      out, left := React(time, count);
    }

    /** What the driver did since it had `last` as last stamp, with a budget of `count`: what is due at every SYN since the
        `from`-th, in order. `left` is what remains of the budget. */
    ghost predicate Did(last: int, count: nat, from: nat, data: seq<int>, left: nat)
      reads this
      requires delay > 0
    {
      from <= ticks
      && Outcome(Desk(lastTs, left), data)
         == SynRun(Desk(last, count), Settings(), clock, from, ticks)
    }

    method Handle(e: InputEvent, count: nat, ghost last: int, ghost all: nat, ghost from: nat, ghost data: seq<int>)
      returns (out: seq<int>, left: nat)
      requires Monotone(clock) && InOrder(Latest(clock, ticks)) && count > 0 && delay > 0
      requires Did(last, all, from, data, count)
      modifies this`lastTs, this`ticks, this`stamps, this`log
      ensures InOrder(Latest(clock, ticks)) && stamps == old(stamps) + out && log == old(log) + out
              && |out| + left <= count
      ensures ticks == old(ticks) + (if e.kind == EV_SYN then 1 else 0)
      ensures Did(last, all, from, data + out, left)
    {
      out, left := [], count;
      if e.kind == EV_SYN {
        out, left := Syn(count);
      } else {
        assert data + [] == data;
      }
    }

    /** A call never emits more than `count`, takes every event in order, emits what is due at every SYN it takes, and gives
        the fill's own code when it fails. `left` is the budget it did not spend: if there is any, every event was taken,
        and a sensor that is on and settled has its last real reading last. */
    method ReadEvents(k: KernelRead, count: int) returns (r: int, data: seq<int>, ghost left: nat)
      requires Valid() && delay > 0 && ReadFits(k, ring.free)
      modifies this`lastTs, this`ticks, this`stamps, this`log, ring, ring.buffer
      ensures Valid() && stamps == old(stamps) + data && log == old(log) + data
      ensures ring.arrived == old(ring.arrived) + (if count < 1 then [] else Accepted(k))
      ensures count < 1 ==> r == -EINVAL && data == []
      ensures count >= 1 ==> var filled := FillResult(k, old(ring.free));
                             if filled < 0 then r == filled && data == [] else r == |data| <= count
      ensures r >= 0 ==> Did(old(lastTs), count, old(ticks), data, left) && (left > 0 ==> ring.Contents() == [])
      ensures old(ring.consumed) <= ring.consumed
              && ticks == old(ticks) + CountSyn(ring.consumed[|old(ring.consumed)|..])
      ensures r >= 0 && left > 0 && enabled && ticks > old(ticks) && clock(ticks - 1) >= enabledTime ==>
        EndsAt(data, clock(ticks - 1))
    {
      data, left := [], 0;
      ghost var before := ring.consumed;
      assert before[|before|..] == [];
      if count < 1 {
        return -EINVAL, data, left;
      }
      var n := ring.Fill(k);
      if n < 0 {
        return n, data, left;
      }
      data, left := Take(count);
      return |data|, data, left;
    }

    method Take(count: nat) returns (data: seq<int>, ghost left: nat)
      requires Valid() && delay > 0
      modifies this`lastTs, this`ticks, this`stamps, this`log, ring`curr, ring`free, ring`consumed
      ensures Valid() && stamps == old(stamps) + data && log == old(log) + data && |data| <= count
      ensures Did(old(lastTs), count, old(ticks), data, left) && (left > 0 ==> ring.Contents() == [])
      ensures old(ring.consumed) <= ring.consumed
              && ticks == old(ticks) + CountSyn(ring.consumed[|old(ring.consumed)|..])
      ensures left > 0 && enabled && ticks > old(ticks) && clock(ticks - 1) >= enabledTime ==> EndsAt(data, clock(ticks - 1))
    {
      data, left := Drain(count);
      RunEndsWithReading(Desk(old(lastTs), count), Settings(), clock, old(ticks), ticks);
    }

    method Drain(count: nat) returns (data: seq<int>, ghost rest: nat)
      requires Valid() && delay > 0
      modifies this`lastTs, this`ticks, this`stamps, this`log, ring`curr, ring`free, ring`consumed
      ensures Valid() && stamps == old(stamps) + data && log == old(log) + data && |data| <= count
      ensures Did(old(lastTs), count, old(ticks), data, rest) && (rest > 0 ==> ring.Contents() == [])
      ensures old(ring.consumed) <= ring.consumed
              && ticks == old(ticks) + CountSyn(ring.consumed[|old(ring.consumed)|..])
    {
      data := [];
      var left := count;
      while left != 0
        invariant Valid() && 0 <= left <= count - |data| && stamps == old(stamps) + data && log == old(log) + data
        invariant Did(old(lastTs), count, old(ticks), data, left)
        invariant old(ring.consumed) <= ring.consumed
        invariant ticks == old(ticks) + CountSyn(ring.consumed[|old(ring.consumed)|..])
        decreases |ring.Contents()|
      {
        var more, e := ring.ReadEvent();
        if !more {
          break;
        }
        var out;
        out, left := Handle(e, left, old(lastTs), count, old(ticks), data);
        Associate(old(stamps), data, out);
        Associate(old(log), data, out);
        data := data + out;
        OneMoreTaken(ring.consumed, |old(ring.consumed)|, e);
        ring.Next();
      }
      rest := left;
    }
  }

  lemma {:induction false} OneMoreTaken(consumed: seq<InputEvent>, from: nat, e: InputEvent)
    requires from <= |consumed|
    ensures CountSyn((consumed + [e])[from..]) == CountSyn(consumed[from..]) + if e.kind == EV_SYN then 1 else 0
  {
    var tail := (consumed + [e])[from..];
    assert tail[..|tail| - 1] == consumed[from..];
  }

  /** It does happen: switched on at 0.6 s and read at 1 s, then switched on again at 1.001 s and read at 1.351 s, with a
      delay of 100 ms, the second session's first stamp is from 0.951 s. */
  method SessionsOverlap() returns (s: HumiditySensor)
    ensures fresh(s) && s.Valid() && Sorted(s.stamps) && !Sorted(s.log)
  {
    s := new HumiditySensor((n: nat) => if n == 0 then 1000000000 else 1351000000);
    var _ := s.SetDelay(100000000, true);
    FirstSession(s, 600000000);
    Overlap();
    SecondSession(s, 1001000000, 1351000000, 1000000000);
  }

  lemma {:induction false} Overlap()
    ensures ReachesPast(0, 100000000, 1351000000, 1000000000)
  {
    assert Back(4, 100000000) == 400000000;
  }

  /** A budget of 100 pays for everything due. */
  lemma {:induction false} EndsWithReading(last: int, delay: int, time: int)
    requires delay > 0
    ensures var out := Cut(Full(last, delay, time), 100); out != [] && out[|out| - 1] == time
  {
    FilledLies(time, delay, MadeUp(last, delay, time));
  }

  /** A first session, switched on at `now`, ends with its one reading. */
  method FirstSession(s: HumiditySensor, now: int)
    requires s.Valid() && s.log == [] && s.delay > 0 && s.clock(s.ticks) >= now + IGNORE_EVENT_TIME
    modifies s
    ensures s.Valid() && s.ticks == old(s.ticks) + 1 && s.delay == old(s.delay)
    ensures s.log != [] && Sorted(s.log) && s.log[|s.log| - 1] == s.clock(old(s.ticks))
  {
    EndsWithReading(0, s.delay, s.clock(s.ticks));
    var _ := s.Enable(true, true, now);
    var first, _ := s.Syn(100);
    assert s.log == [] + first && s.stamps == [] + first;
  }

  /** A second session, switched on at `now` and read at `time`, starts before `p`, where the first ended. */
  method SecondSession(s: HumiditySensor, now: int, time: int, ghost p: int)
    requires s.Valid() && s.delay > 0 && s.clock(s.ticks) == time >= now + IGNORE_EVENT_TIME
    requires s.log != [] && Sorted(s.log) && s.log[|s.log| - 1] == p && ReachesPast(0, s.delay, time, p)
    modifies s
    ensures s.Valid() && Sorted(s.stamps) && !Sorted(s.log)
  {
    var _ := s.Enable(true, true, now);
    var second, _ := s.Syn(100);
  }
}
