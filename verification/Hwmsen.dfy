/** The legacy driver: samples are stamped on delivery, and missed ones are made up, back-dated. */
module Hwmsen {
  import opened InputEvents
  import opened EventRing
  import opened Stream
  import opened BackDating

  const ONE_SECOND := 1000000000
  const NUM_SENSORS := 6
  const RING_SIZE := 4
  const GYRO := 3          // sensors up to this one are motion sensors

  /** How many samples the driver makes up; the quotient is taken exactly. */
  function Missing(last: int, delay: int, time: int): (n: nat)
    requires delay > 0
  {
    if time - last <= Slack(delay) || delay == ONE_SECOND || last == 0 then 0 else
    var n := Whole(time - last, delay);
    if 1 <= n < 100 then n else 0
  }

  /** Everything one turn would emit with an unlimited budget. */
  function Full(last: int, delay: int, time: int): (ts: seq<int>)
    requires delay > 0
  {
    Filled(time, delay, Missing(last, delay, time))
  }

  /** A turn's stamps never decrease, never precede the last stamp of the session, and end no later than the clock. */
  lemma {:induction false} FullIsOrdered(last: int, delay: int, time: int)
    requires delay > 0 && 0 <= last <= time
    ensures Sorted(Full(last, delay, time))
    ensures forall i :: 0 <= i < |Full(last, delay, time)| ==> last <= Full(last, delay, time)[i] <= time
    ensures last == 0 ==> Full(last, delay, time) == [time]
  {
    var n := Missing(last, delay, time);
    FilledLies(time, delay, n);
    AtMost(n, delay, time - last);
  }

  /** A turn's stamps written out: one delay apart up to the clock, as many as whole delays passed since the last stamp, if
      more than 1.8 but fewer than 100 delays did, the delay is not one second and the session has a last stamp;
      otherwise the clock alone. */
  lemma {:induction false} FullIsExactly(last: int, delay: int, time: int)
    requires delay > 0 && 0 <= last <= time
    ensures var ts := Full(last, delay, time);
            && |ts| > 0 && (forall i :: 0 <= i < |ts| ==> ts[i] == time - (|ts| - 1 - i) * delay)
            && if last != 0 && delay != 1000000000 && delay * 18 / 10 < time - last < 100 * delay
               then (|ts| - 1) * delay <= time - last < |ts| * delay else |ts| == 1
  {
    var n, ts := Missing(last, delay, time), Full(last, delay, time);
    forall i | 0 <= i < |ts| ensures ts[i] == time - (|ts| - 1 - i) * delay {
      FilledAt(time, delay, n, i);
    }
    WholeIsFloor(time - last, delay);
    AtMost(1, delay, time - last);
    AtMost(100, delay, time - last);
    assert (n + 1) * delay == n * delay + delay;
  }

  /** A running session with a delay other than one second and fewer than 100 samples missed. */
  predicate Steady(last: int, delay: int, time: int)
    requires delay > 0
  {
    last != 0 && delay != ONE_SECOND && Whole(time - last, delay) < 100
  }

  /** The gap beyond which samples are made up. */
  function Slack(delay: int): int { delay * 18 / 10 }

  /** In a steady session the first stamp of a turn follows the last one within 1.8 delays. */
  lemma {:induction false} FullFollows(last: int, delay: int, time: int)
    requires delay > 0 && 0 <= last <= time && Steady(last, delay, time)
    ensures Full(last, delay, time)[0] - last <= Slack(delay)
  {
    WholeIsFloor(time - last, delay);
    FilledLies(time, delay, Missing(last, delay, time));
  }

  /** Gap bound: a turn appended to a steady session's stamps, however the budget cuts it off, goes on in steps of at most
      1.8 delays, and of exactly one delay from its own first stamp on. */
  lemma {:induction false} GapsAreBounded(stamps: seq<int>, last: int, delay: int, time: int, budget: nat)
    requires delay > 0 && 0 <= last <= time && Steady(last, delay, time)
    requires stamps != [] && stamps[|stamps| - 1] == last
    ensures var out := Cut(Full(last, delay, time), budget);
            && StepsWithin(stamps + out, |stamps| - 1, delay * 18 / 10)
            && Evenly(out, delay)
            && (budget >= |Full(last, delay, time)| ==> out[|out| - 1] == time)
  {
    FilledLies(time, delay, Missing(last, delay, time));
    FullFollows(last, delay, time);
    EvenSteps(Full(last, delay, time), delay, Slack(delay), budget);
    StepsJoin(stamps, Cut(Full(last, delay, time), budget), Slack(delay));
  }

  /** Exactly when a turn repeats the session's last stamp: it makes samples up and the gap is a whole number of delays,
      or it makes none up and the clock has not moved. */
  lemma {:induction false} FirstStampRepeats(last: int, delay: int, time: int)
    requires delay > 0 && 0 < last <= time
    ensures Full(last, delay, time)[0] == last
       <==> if Missing(last, delay, time) > 0 then (time - last) % delay == 0 else time == last
  {
    var n := Missing(last, delay, time);
    WholeIsFloor(time - last, delay);
    FilledLies(time, delay, n);
  }

  // ---- The driver ----

  /** A motion sensor's stamps so far are in order and bounded by the clock; in a running session (non-zero last stamp)
      that last stamp is the one emitted last. */
  ghost predicate Good(stamps: seq<int>, last: int, now: int) {
    && Sorted(stamps) && 0 <= last <= now
    && (stamps != [] ==> stamps[|stamps| - 1] <= now) && (last != 0 ==> stamps != [] && stamps[|stamps| - 1] == last)
  }

  lemma {:induction false} TurnKeepsGood(stamps: seq<int>, last: int, now: int, delay: int, time: int, budget: nat)
    requires Good(stamps, last, now) && now <= time && delay > 0 && budget > 0
    ensures var out := Cut(Full(last, delay, time), budget);
            out != [] && Good(stamps + out, out[|out| - 1], time)
  {
    FullIsOrdered(last, delay, time);
    SortedCut(Full(last, delay, time), budget);
    SortedAppend(stamps, Cut(Full(last, delay, time), budget));
  }

  lemma {:induction false} TurnLies(stamps: seq<int>, last: int, delay: int, time: int, budget: nat, ts: seq<int>)
    requires delay > 0 && budget > 0 && Good(stamps, last, time) && ts == Cut(Full(last, delay, time), budget)
    ensures ts != [] && Good(stamps + ts, ts[|ts| - 1], time)
    ensures Steady(last, delay, time) ==> StepsWithin(stamps + ts, |stamps| - 1, Slack(delay))
  {
    TurnKeepsGood(stamps, last, time, delay, time, budget);
    if Steady(last, delay, time) {
      GapsAreBounded(stamps, last, delay, time, budget);
    }
  }

  function Only(i: int): Stamp -> seq<int> {
    (s: Stamp) => if s.sensor == i then [s.time] else []
  }

  function Stamped(i: int, ts: seq<int>): (ss: seq<Stamp>)
    ensures |ss| == |ts| && forall k :: 0 <= k < |ts| ==> ss[k] == Stamp(i, ts[k])
  {
    seq(|ts|, k requires 0 <= k < |ts| => Stamp(i, ts[k]))
  }

  lemma {:induction false} OnlyStamped(i: int, j: int, ts: seq<int>)
    ensures Gather(Only(j), Stamped(i, ts)) == if i == j then ts else []
  {
    if ts != [] {
      var n := |ts| - 1;
      OnlyStamped(i, j, ts[..n]);
      assert Stamped(i, ts) == Stamped(i, ts[..n]) + [Stamp(i, ts[n])];
      GatherOne(Only(j), Stamped(i, ts[..n]), Stamp(i, ts[n]));
    }
  }

  /** `after` extends `before` by the stamps of `data`, sensor by sensor. */
  ghost predicate Logged(before: seq<seq<int>>, after: seq<seq<int>>, data: seq<Stamp>) {
    |before| == |after| == NUM_SENSORS
    && forall i :: 0 <= i < NUM_SENSORS ==> after[i] == before[i] + Gather(Only(i), data)
  }

  lemma {:induction false} LogStamps(before: seq<seq<int>>, i: int, ts: seq<int>)
    requires |before| == NUM_SENSORS && 0 <= i < NUM_SENSORS
    ensures Logged(before, before[i := before[i] + ts], Stamped(i, ts))
  {
    forall j | 0 <= j < NUM_SENSORS ensures before[i := before[i] + ts][j] == before[j] + Gather(Only(j), Stamped(i, ts)) {
      OnlyStamped(i, j, ts);
    }
  }

  lemma {:induction false} LoggedConcat(a: seq<seq<int>>, b: seq<seq<int>>, c: seq<seq<int>>, data: seq<Stamp>,
        more: seq<Stamp>)
    requires Logged(a, b, data) && Logged(b, c, more)
    ensures Logged(a, c, data + more)
  {
    forall i | 0 <= i < NUM_SENSORS ensures c[i] == a[i] + Gather(Only(i), data + more) {
      GatherConcat(Only(i), data, more);
    }
  }

  /** All motion sensors are good. */
  ghost predicate AllGood(stamps: seq<seq<int>>, last: seq<int>, now: int) {
    |stamps| == |last| == NUM_SENSORS && forall i :: 0 <= i <= GYRO ==> Good(stamps[i], last[i], now)
  }

  lemma {:induction false} MotionKeepsAllGood(stamps: seq<seq<int>>, last: seq<int>, now: int, i: int, ts: seq<int>,
        l: int)
    requires AllGood(stamps, last, now) && 0 <= i <= GYRO && Good(stamps[i] + ts, l, now)
    ensures AllGood(stamps[i := stamps[i] + ts], last[i := l], now)
  {
  }

  lemma {:induction false} OtherKeepsAllGood(stamps: seq<seq<int>>, last: seq<int>, now: int, i: int, ts: seq<int>)
    requires AllGood(stamps, last, now) && GYRO < i < NUM_SENSORS
    ensures AllGood(stamps[i := stamps[i] + ts], last, now)
  {
  }

  // ---- A SYN, sensor by sensor ----

  /** Sensors pending before stay pending, and those reported become so. */
  function Marked(mask: seq<bool>, reported: set<int>): (r: seq<bool>)
    ensures |r| == |mask| && forall i :: 0 <= i < |mask| ==> r[i] == (mask[i] || i in reported)
  {
    seq(|mask|, i requires 0 <= i < |mask| => mask[i] || i in reported)
  }

  /** What a SYN works on: the pending bits, the last stamps and the budget. */
  datatype Desk = Desk(mask: seq<bool>, last: seq<int>, budget: nat)

  predicate Sized(d: Desk, delays: seq<int>) {
    |d.mask| == |d.last| == |delays| == NUM_SENSORS && forall j :: 0 <= j <= GYRO ==> delays[j] > 0
  }

  /** Sensor `i`'s turn: nothing unless it is pending and budget is left; a motion sensor remembers the stamp it emitted
      last. */
  function TurnStep(delays: seq<int>, time: int): (Desk, int) -> Outcome<Desk, Stamp> {
    (d: Desk, i: int) =>
      if Sized(d, delays) && 0 <= i < NUM_SENSORS && d.mask[i] && d.budget > 0 then
        if i <= GYRO then
          var ts := Cut(Full(d.last[i], delays[i], time), d.budget);
          Outcome(Desk(d.mask[i := false], d.last[i := ts[|ts| - 1]], d.budget - |ts|), Stamped(i, ts))
        else Outcome(d.(mask := d.mask[i := false], budget := d.budget - 1), [Stamp(i, time)])
      else Outcome(d, [])
  }

  lemma {:induction false} MotionStep(d: Desk, i: int, delays: seq<int>, time: int, ts: seq<int>)
    requires Sized(d, delays) && 0 <= i <= GYRO && d.mask[i] && d.budget > 0
    requires ts == Cut(Full(d.last[i], delays[i], time), d.budget)
    ensures 0 < |ts| <= d.budget && TurnStep(delays, time)(d, i)
         == Outcome(Desk(d.mask[i := false], d.last[i := ts[|ts| - 1]], d.budget - |ts|), Stamped(i, ts))
  {
  }

  function Indices(n: nat): (s: seq<int>)
    ensures |s| == n && forall k :: 0 <= k < n ==> s[k] == k
  {
    seq(n, k => k)
  }

  /** Pending sensors take their turns in index order, each with the budget the ones before it left. */
  function TurnsUpTo(n: nat, d: Desk, delays: seq<int>, time: int): Outcome<Desk, Stamp> {
    Run(TurnStep(delays, time), d, Indices(n))
  }

  lemma {:induction false} NextTurn(n: nat, d: Desk, delays: seq<int>, time: int)
    ensures var r := TurnsUpTo(n, d, delays, time);
            var t := TurnStep(delays, time)(r.state, n);
            TurnsUpTo(n + 1, d, delays, time) == Outcome(t.state, r.out + t.out)
  {
    assert Indices(n + 1) == Indices(n) + [n];
    RunOne(TurnStep(delays, time), d, Indices(n), n);
  }

  /** Sensors that are not pending, or find no budget, add nothing. */
  lemma {:induction false} NoMoreTurns(n: nat, m: nat, d: Desk, delays: seq<int>, time: int)
    requires n <= m
    requires var r := TurnsUpTo(n, d, delays, time).state;
             r.budget == 0 || forall j :: n <= j < m && j < |r.mask| ==> !r.mask[j]
    ensures TurnsUpTo(m, d, delays, time) == TurnsUpTo(n, d, delays, time)
    decreases m - n
  {
    if n < m {
      NextTurn(n, d, delays, time);
      var r := TurnsUpTo(n, d, delays, time);
      assert r.out + [] == r.out;
      NoMoreTurns(n + 1, m, d, delays, time);
    }
  }

  // ---- A run of SYNs ----

  /** The k-th SYN: reported sensors become pending, and all take their turns. */
  function OneSyn(d: Desk, k: nat, delays: seq<int>, clock: nat -> int, updated: nat -> set<int>): Outcome<Desk, Stamp> {
    TurnsUpTo(NUM_SENSORS, d.(mask := Marked(d.mask, updated(k))), delays, clock(k))
  }

  /** The SYNs `t0` up to `t1`, one after the other. */
  function SynRun(d: Desk, delays: seq<int>, clock: nat -> int, updated: nat -> set<int>, t0: nat, t1: nat)
    : (r: Outcome<Desk, Stamp>)
    requires t0 <= t1
    decreases t1 - t0
  {
    if t0 == t1 then Outcome(d, []) else
    var r := SynRun(d, delays, clock, updated, t0, t1 - 1);
    var t := OneSyn(r.state, t1 - 1, delays, clock, updated);
    Outcome(t.state, r.out + t.out)
  }

  lemma {:induction false} OneMoreRun(d: Desk, r: Outcome<Desk, Stamp>, delays: seq<int>, clock: nat -> int,
      updated: nat -> set<int>, t0: nat, k: nat)
    requires t0 <= k && r == SynRun(d, delays, clock, updated, t0, k)
    ensures var t := OneSyn(r.state, k, delays, clock, updated);
            SynRun(d, delays, clock, updated, t0, k + 1) == Outcome(t.state, r.out + t.out)
  {
  }

  /** The latest of the SYNs `t0` up to `t1` that reported sensor `i`, where a bit pending before counts as reported by the
      first; -1 when none did. */
  function LastReport(i: int, was: bool, updated: nat -> set<int>, t0: nat, t1: nat): (k: int)
    requires t0 <= t1
    ensures -1 <= k < t1
    decreases t1 - t0
  {
    if t0 == t1 then -1
    else if Reports(i, was, updated, t0, t1 - 1) then t1 - 1
    else LastReport(i, was, updated, t0, t1 - 1)
  }

  predicate Reports(i: int, was: bool, updated: nat -> set<int>, t0: nat, k: nat) {
    i in updated(k) || (was && k == t0)
  }

  lemma {:induction false} LastReportIsLast(i: int, was: bool, updated: nat -> set<int>, t0: nat, t1: nat)
    requires t0 <= t1
    ensures var k := LastReport(i, was, updated, t0, t1);
            && (k >= 0 ==> t0 <= k && Reports(i, was, updated, t0, k))
            && forall j: nat :: t0 <= j < t1 && k < j ==> !Reports(i, was, updated, t0, j)
    decreases t1 - t0
  {
    if t0 < t1 && !Reports(i, was, updated, t0, t1 - 1) {
      LastReportIsLast(i, was, updated, t0, t1 - 1);
    }
  }

  /** A sensor's own stamps end at `time`. */
  ghost predicate EndsAt(own: seq<int>, time: int) { own != [] && own[|own| - 1] == time }

  /** The budget only goes down, and a turn that leaves some ends with the real sample. */
  lemma {:induction false} TurnServes(d: Desk, i: int, delays: seq<int>, time: int)
    requires Sized(d, delays) && 0 <= i < NUM_SENSORS
    ensures var t := TurnStep(delays, time)(d, i);
            && Sized(t.state, delays) && t.state.budget <= d.budget
            && (t.state.budget > 0 ==> t.state.mask == d.mask[i := false])
            && (forall j :: j != i ==> Gather(Only(j), t.out) == [])
            && (t.state.budget > 0 ==> if d.mask[i] then EndsAt(Gather(Only(i), t.out), time) else t.out == [])
  {
    var t := TurnStep(delays, time)(d, i);
    if d.mask[i] && d.budget > 0 {
      var ts := if i <= GYRO then Cut(Full(d.last[i], delays[i], time), d.budget) else [time];
      assert t.out == Stamped(i, ts);
      forall j ensures Gather(Only(j), t.out) == if i == j then ts else [] {
        OnlyStamped(i, j, ts);
      }
    }
  }

  /** Sensor `i` among the first `n`, after these had their turns: pending no more, and ending with the real sample if it was. */
  ghost predicate ServedOne(n: nat, i: int, was: bool, pending: bool, own: seq<int>, time: int) {
    pending == (i >= n && was) && if i < n && was then EndsAt(own, time) else own == []
  }

  ghost predicate Served(n: nat, d: Desk, r: Outcome<Desk, Stamp>, time: int) {
    |d.mask| == |r.state.mask| == NUM_SENSORS
    && forall i :: 0 <= i < NUM_SENSORS ==>
         ServedOne(n, i, d.mask[i], r.state.mask[i], Gather(Only(i), r.out), time)
  }

  ghost predicate TurnsFine(n: nat, d: Desk, r: Outcome<Desk, Stamp>, delays: seq<int>, time: int) {
    Sized(r.state, delays) && r.state.budget <= d.budget && (r.state.budget > 0 ==> Served(n, d, r, time))
  }

  lemma {:induction false} TurnsServe(n: nat, d: Desk, delays: seq<int>, time: int)
    requires n <= NUM_SENSORS && Sized(d, delays)
    ensures var r := TurnsUpTo(n, d, delays, time);
            TurnsFine(n, d, r, delays, time)
  {
    if n == 0 {
      assert TurnsUpTo(0, d, delays, time) == Outcome(d, []);
    } else {
      TurnsServe(n - 1, d, delays, time);
      NextTurn(n - 1, d, delays, time);
      OneTurnServes(n - 1, d, TurnsUpTo(n - 1, d, delays, time), delays, time);
    }
  }

  lemma {:induction false} OneTurnServes(n: nat, d: Desk, r: Outcome<Desk, Stamp>, delays: seq<int>, time: int)
    requires n < NUM_SENSORS && TurnsFine(n, d, r, delays, time)
    ensures var t := TurnStep(delays, time)(r.state, n);
            TurnsFine(n + 1, d, Outcome(t.state, r.out + t.out), delays, time)
  {
    TurnServes(r.state, n, delays, time);
    var t := TurnStep(delays, time)(r.state, n);
    if t.state.budget > 0 {
      forall i | 0 <= i < NUM_SENSORS
        ensures ServedOne(n + 1, i, d.mask[i], t.state.mask[i], Gather(Only(i), r.out + t.out), time)
      {
        assert ServedOne(n, i, d.mask[i], r.state.mask[i], Gather(Only(i), r.out), time);
        GatherConcat(Only(i), r.out, t.out);
        if i != n || !d.mask[i] {
          assert Gather(Only(i), t.out) == [];
        }
      }
    }
  }

  /** Sensor `i` after the SYNs `t0` up to `t1`: pending no more, with stamps that end with the clock reading of the last SYN
      that reported it, or with none if none did. */
  ghost predicate RunServedOne(i: int, was: bool, pending: bool, own: seq<int>,
      clock: nat -> int, updated: nat -> set<int>, t0: nat, t1: nat)
    requires t0 <= t1
  {
    var k := LastReport(i, was, updated, t0, t1);
    pending == (t0 == t1 && was) && if k >= 0 then EndsAt(own, clock(k)) else own == []
  }

  ghost predicate RunServed(d: Desk, r: Outcome<Desk, Stamp>, clock: nat -> int, updated: nat -> set<int>, t0: nat, t1: nat)
    requires t0 <= t1
  {
    |d.mask| == |r.state.mask| == NUM_SENSORS
    && forall i :: 0 <= i < NUM_SENSORS ==>
         RunServedOne(i, d.mask[i], r.state.mask[i], Gather(Only(i), r.out), clock, updated, t0, t1)
  }

  /** As long as budget is left. */
  ghost predicate RunFine(d: Desk, r: Outcome<Desk, Stamp>, delays: seq<int>, clock: nat -> int, updated: nat -> set<int>,
      t0: nat, t1: nat)
    requires t0 <= t1
  {
    && Sized(r.state, delays) && r.state.budget <= d.budget
    && (r.state.budget > 0 ==> RunServed(d, r, clock, updated, t0, t1))
  }

  lemma {:induction false} NoSynServes(d: Desk, delays: seq<int>, clock: nat -> int, updated: nat -> set<int>, t0: nat)
    requires Sized(d, delays)
    ensures RunFine(d, Outcome(d, []), delays, clock, updated, t0, t0)
  {
  }

  lemma {:induction false} OneMoreSyn(i: int, was: bool, mid: bool, pending: bool, a: seq<int>, b: seq<int>,
      clock: nat -> int, updated: nat -> set<int>, t0: nat, t1: nat)
    requires t0 <= t1 && 0 <= i < NUM_SENSORS && RunServedOne(i, was, mid, a, clock, updated, t0, t1)
    requires ServedOne(NUM_SENSORS, i, mid || i in updated(t1), pending, b, clock(t1))
    ensures RunServedOne(i, was, pending, a + b, clock, updated, t0, t1 + 1)
  {
  }

  lemma {:induction false} RunServes(d: Desk, delays: seq<int>, clock: nat -> int, updated: nat -> set<int>,
      t0: nat, t1: nat)
    requires Sized(d, delays) && t0 <= t1
    ensures var r := SynRun(d, delays, clock, updated, t0, t1);
            RunFine(d, r, delays, clock, updated, t0, t1)
    decreases t1 - t0
  {
    if t0 == t1 {
      NoSynServes(d, delays, clock, updated, t0);
    } else {
      RunServes(d, delays, clock, updated, t0, t1 - 1);
      OneSynServes(d, SynRun(d, delays, clock, updated, t0, t1 - 1), delays, clock, updated, t0, t1 - 1);
    }
  }

  lemma {:induction false} OneSynServes(d: Desk, r: Outcome<Desk, Stamp>, delays: seq<int>, clock: nat -> int,
      updated: nat -> set<int>, t0: nat, t1: nat)
    requires Sized(d, delays) && t0 <= t1 && RunFine(d, r, delays, clock, updated, t0, t1)
    ensures var t := OneSyn(r.state, t1, delays, clock, updated);
            RunFine(d, Outcome(t.state, r.out + t.out), delays, clock, updated, t0, t1 + 1)
  {
    var desk := r.state.(mask := Marked(r.state.mask, updated(t1)));
    TurnsServe(NUM_SENSORS, desk, delays, clock(t1));
    var t := TurnsUpTo(NUM_SENSORS, desk, delays, clock(t1));
    if t.state.budget > 0 {
      forall i | 0 <= i < NUM_SENSORS ensures
        RunServedOne(i, d.mask[i], t.state.mask[i], Gather(Only(i), r.out + t.out), clock, updated, t0, t1 + 1)
      {
        GatherConcat(Only(i), r.out, t.out);
        OneMoreSyn(i, d.mask[i], r.state.mask[i], t.state.mask[i], Gather(Only(i), r.out), Gather(Only(i), t.out),
                   clock, updated, t0, t1);
      }
    }
  }

  // ---- The event loop ----

  predicate Expected(e: InputEvent) { e.kind == EV_REL || e.kind == EV_SYN }

  /** An event of any other type is stepped over together with the one behind it. The SYNs that the loop gets to see: */
  function SynsSeen(q: seq<InputEvent>): nat {
    if q == [] then 0
    else if Expected(q[0]) then (if q[0].kind == EV_SYN then 1 else 0) + SynsSeen(q[1..])
    else if |q| == 1 then 0 else SynsSeen(q[2..])
  }

  /** The loop comes to an unexpected event with nothing behind it, and steps past the end of the ring. */
  predicate Overruns(q: seq<InputEvent>) {
    q != [] && if Expected(q[0]) then Overruns(q[1..]) else |q| == 1 || Overruns(q[2..])
  }

  /** On a device that posts REL and SYN events only, the loop sees every SYN and never overruns. */
  lemma {:induction false} ExpectedOnly(q: seq<InputEvent>)
    requires forall i :: 0 <= i < |q| ==> q[i].kind == EV_REL || q[i].kind == EV_SYN
    ensures SynsSeen(q) == CountSyn(q) && !Overruns(q)
  {
    if q != [] {
      ExpectedOnly(q[1..]);
      assert q == [q[0]] + q[1..];
      CountSynConcat([q[0]], q[1..]);
    }
  }

  class HwmsenDriver {
    const clock: nat -> int
    const updated: nat -> set<int>    // which sensors the ioctl of the k-th SYN reports
    const ring: InputEventCircularReader
    var activeSensors: set<int>
    var pendingMask: seq<bool>
    var delays: seq<int>
    var lastTs: seq<int>
    var ticks: nat

    ghost var stamps: seq<seq<int>>   // per sensor, everything emitted since the driver was made

    /** Order over every run: each motion sensor's stamps never decrease, through reads, delay changes, re-enables and
        budgets that end in the middle of a turn. */
    ghost predicate InOrder(now: int)
      reads this
    {
      |pendingMask| == |delays| == NUM_SENSORS && AllGood(stamps, lastTs, now)
    }

    ghost predicate Valid()
      reads this, ring, ring.buffer
    {
      Monotone(clock) && InOrder(Latest(clock, ticks)) && ring.Valid()
    }

    constructor (clock: nat -> int, updated: nat -> set<int>)
      requires Monotone(clock)
      ensures Valid() && fresh(ring) && fresh(ring.buffer) && ring.Contents() == []
      ensures ring.capacity == RING_SIZE && this.clock == clock && this.updated == updated
      ensures ticks == 0 && activeSensors == {}
      ensures forall i :: 0 <= i < NUM_SENSORS ==> stamps[i] == [] && lastTs[i] == 0
      ensures forall i :: 0 <= i < NUM_SENSORS ==> delays[i] == 200000000 && !pendingMask[i]
    {
      this.clock, this.updated := clock, updated;
      ring := new InputEventCircularReader(RING_SIZE);
      activeSensors, ticks := {}, 0;
      pendingMask := seq(NUM_SENSORS, i => false);
      delays := seq(NUM_SENSORS, i => 200000000);
      lastTs := seq(NUM_SENSORS, i => 0);
      stamps := seq(NUM_SENSORS, i => []);
    }

    /** The slot a handle is kept in; -1 for handles of other drivers. */
    static function SlotOf(handle: int): (slot: int)
      ensures slot >= 0 <==> handle in {0, 1, 2, 3, 4, 7}
      ensures slot >= 0 ==> slot == if handle < 5 then handle else 5
    {
      if 0 <= handle <= 4 then handle else if handle == 7 then 5 else -1
    }

    method Enable(handle: int, en: int, ioctlsSucceed: bool) returns (r: int)
      requires Valid()
      modifies this`activeSensors, this`lastTs
      ensures Valid()
      ensures SlotOf(handle) >= 0 && en == 1 ==> lastTs == old(lastTs)[SlotOf(handle) := 0]
      ensures !(SlotOf(handle) >= 0 && en == 1) ==> lastTs == old(lastTs)
      ensures r == if SlotOf(handle) < 0 || ioctlsSucceed then 0 else -1
      ensures activeSensors == if SlotOf(handle) < 0 || (en == 1 && !ioctlsSucceed) then old(activeSensors)
                               else if en == 1 then old(activeSensors) + {handle} else old(activeSensors) - {handle}
    {
      if SlotOf(handle) < 0 {
        return 0;
      }
      if en == 1 {
        lastTs := lastTs[SlotOf(handle) := 0];
        if !ioctlsSucceed {
          return -1;
        }
        activeSensors := activeSensors + {handle};
      } else {
        activeSensors := activeSensors - {handle};
        if !ioctlsSucceed {
          return -1;
        }
      }
      return 0;
    }

    method SetDelay(handle: int, ns: int, ioctlSucceeds: bool, errno: int) returns (r: int)
      requires Valid()
      modifies this`delays
      ensures Valid()
      ensures delays == if 0 <= handle <= 4 && ns >= 0 then old(delays)[handle := ns] else old(delays)
      ensures r == if !(0 <= handle <= 4) then 0 else if ns < 0 then -EINVAL else if ioctlSucceeds then 0 else -errno
    {
      if !(0 <= handle <= 4) {
        return 0;
      }
      if ns < 0 {
        return -EINVAL;
      }
      delays := delays[handle := ns];
      return if ioctlSucceeds then 0 else -errno;
    }

    /** The loop over the samples missed. */
    static method FillGap(time: int, delay: int, loops: nat, count: nat) returns (out: seq<int>)
      requires delay > 0 && count > 0
      ensures out == Cut(Fabricated(time, delay, loops), count)
    {
      out := [];
      ghost var all := Fabricated(time, delay, loops);
      var j := 0;
      while j < loops
        invariant 0 <= j <= loops && out == all[..j] && j < count
      {
        FabricatedAt(time, delay, loops, j);
        out := out + [time - (loops - j) * delay];
        if |out| == count {
          return;
        }
        j := j + 1;
      }
    }

    /** A motion sensor's turn at a SYN. */
    method FillAndEmit(i: int, time: int, count: nat) returns (out: seq<int>)
      requires 0 <= i < |lastTs| == |delays| && delays[i] > 0 && count > 0
      modifies this`lastTs
      ensures out != [] && out == Cut(Full(old(lastTs)[i], delays[i], time), count)
      ensures lastTs == old(lastTs)[i := out[|out| - 1]]
    {
      out := [];
      if time - lastTs[i] > Slack(delays[i]) {
        var loops := (time - lastTs[i]) / delays[i];
        WholeIsFloor(time - lastTs[i], delays[i]);
        if delays[i] == ONE_SECOND || lastTs[i] == 0 {
          loops := 0;
        }
        if 1 <= loops < 100 {
          out := FillGap(time, delays[i], loops, count);
        }
      }
      if |out| != count {
        out := out + [time];
      }
      lastTs := lastTs[i := out[|out| - 1]];
    }

    /** Any sensor's turn, when its bit is pending. In a steady session of a motion sensor, its stamps go on in steps of
        at most 1.8 delays. */
    method TakeTurn(i: int, time: int, count: nat) returns (out: seq<Stamp>)
      requires InOrder(time) && 0 <= i < NUM_SENSORS && count > 0 && pendingMask[i]
      requires forall j :: 0 <= j <= GYRO ==> delays[j] > 0
      modifies this`lastTs, this`pendingMask, this`stamps
      ensures InOrder(time) && Logged(old(stamps), stamps, out)
      ensures |out| <= count && Outcome(Desk(pendingMask, lastTs, count - |out|), out)
           == TurnStep(delays, time)(Desk(old(pendingMask), old(lastTs), count), i)
      ensures i <= GYRO && Steady(old(lastTs)[i], delays[i], time)
              ==> StepsWithin(stamps[i], |old(stamps)[i]| - 1, delays[i] * 18 / 10)
    {
      if i <= GYRO {
        out := TakeMotionTurn(i, time, count);
      } else {
        out := TakeOtherTurn(i, time, count);
      }
    }

    method TakeMotionTurn(i: int, time: int, count: nat) returns (out: seq<Stamp>)
      requires InOrder(time) && 0 <= i <= GYRO && count > 0 && pendingMask[i]
      requires forall j :: 0 <= j <= GYRO ==> delays[j] > 0
      modifies this`lastTs, this`pendingMask, this`stamps
      ensures InOrder(time) && Logged(old(stamps), stamps, out)
      ensures |out| <= count && Outcome(Desk(pendingMask, lastTs, count - |out|), out)
           == TurnStep(delays, time)(Desk(old(pendingMask), old(lastTs), count), i)
      ensures Steady(old(lastTs)[i], delays[i], time)
              ==> StepsWithin(stamps[i], |old(stamps)[i]| - 1, delays[i] * 18 / 10)
    {
      pendingMask := pendingMask[i := false];
      ghost var before, last := stamps, lastTs;
      var ts := MotionTurn(i, time, count, old(pendingMask));
      MotionKeepsAllGood(before, last, time, i, ts, lastTs[i]);
      out := Record(i, ts);
    }

    /** Emits stamps of sensor `i`. */
    method Record(i: int, ts: seq<int>) returns (out: seq<Stamp>)
      requires |stamps| == NUM_SENSORS && 0 <= i < NUM_SENSORS
      modifies this`stamps
      ensures out == Stamped(i, ts) && stamps == old(stamps)[i := old(stamps)[i] + ts]
              && Logged(old(stamps), stamps, out)
      ensures stamps[i] == old(stamps)[i] + ts
    {
      out := Stamped(i, ts);
      LogStamps(stamps, i, ts);
      stamps := stamps[i := stamps[i] + ts];
    }

    method TakeOtherTurn(i: int, time: int, count: nat) returns (out: seq<Stamp>)
      requires InOrder(time) && GYRO < i < NUM_SENSORS && count > 0 && pendingMask[i]
      requires forall j :: 0 <= j <= GYRO ==> delays[j] > 0
      modifies this`lastTs, this`pendingMask, this`stamps
      ensures InOrder(time) && Logged(old(stamps), stamps, out)
      ensures |out| <= count && Outcome(Desk(pendingMask, lastTs, count - |out|), out)
           == TurnStep(delays, time)(Desk(old(pendingMask), old(lastTs), count), i)
    {
      pendingMask := pendingMask[i := false];
      OtherKeepsAllGood(stamps, lastTs, time, i, [time]);
      out := Record(i, [time]);
    }

    method MotionTurn(i: int, time: int, count: nat, ghost mask: seq<bool>) returns (ts: seq<int>)
      requires |lastTs| == |delays| == |stamps| == |mask| == NUM_SENSORS && 0 <= i <= GYRO && mask[i] && count > 0
      requires (forall j :: 0 <= j <= GYRO ==> delays[j] > 0) && Good(stamps[i], lastTs[i], time)
      modifies this`lastTs
      ensures 0 < |ts| <= count && |lastTs| == NUM_SENSORS && lastTs == old(lastTs)[i := lastTs[i]]
              && Good(stamps[i] + ts, lastTs[i], time)
      ensures TurnStep(delays, time)(Desk(mask, old(lastTs), count), i)
           == Outcome(Desk(mask[i := false], lastTs, count - |ts|), Stamped(i, ts))
      ensures Steady(old(lastTs)[i], delays[i], time)
              ==> StepsWithin(stamps[i] + ts, |stamps[i]| - 1, Slack(delays[i]))
    {
      ghost var desk, last := Desk(mask, lastTs, count), lastTs[i];
      ts := FillAndEmit(i, time, count);
      TurnLies(stamps[i], last, delays[i], time, count, ts);
      MotionStep(desk, i, delays, time, ts);
    }

    /** A SYN: the ioctl marks sensors pending, the clock is read once, and, unless no sensor is active, pending sensors take
        their turns in order. */
    method Syn(count: nat) returns (data: seq<Stamp>)
      requires Monotone(clock) && InOrder(Latest(clock, ticks)) && count > 0 && forall j :: 0 <= j <= GYRO ==>
              delays[j] > 0
      modifies this`lastTs, this`pendingMask, this`stamps, this`ticks
      ensures InOrder(Latest(clock, ticks)) && |data| <= count && ticks == old(ticks) + 1
              && Logged(old(stamps), stamps, data)
      ensures if activeSensors == {} then
                data == [] && lastTs == old(lastTs) && pendingMask == Marked(old(pendingMask), updated(old(ticks)))
              else
                Outcome(Desk(pendingMask, lastTs, count - |data|), data)
                == OneSyn(Desk(old(pendingMask), old(lastTs), count), old(ticks), delays, clock, updated)
    {
      Mark();
      var time := clock(ticks - 1);
      data := [];
      if activeSensors == {} {
        LogNothing(stamps);
      } else {
        data := TakeTurns(time, count);
      }
    }

    method OneTurn(i: int, time: int, count: nat) returns (out: seq<Stamp>)
      requires InOrder(time) && 0 <= i < NUM_SENSORS && count > 0 && pendingMask[i]
      requires forall j :: 0 <= j <= GYRO ==> delays[j] > 0
      modifies this`lastTs, this`pendingMask, this`stamps
      ensures InOrder(time) && Logged(old(stamps), stamps, out)
      ensures |out| <= count && Outcome(Desk(pendingMask, lastTs, count - |out|), out)
           == TurnStep(delays, time)(Desk(old(pendingMask), old(lastTs), count), i)
    {
      out := TakeTurn(i, time, count);
    }

    /** The loop over the sensors. */
    method TakeTurns(time: int, count: nat) returns (data: seq<Stamp>)
      requires InOrder(time) && forall j :: 0 <= j <= GYRO ==> delays[j] > 0
      modifies this`lastTs, this`pendingMask, this`stamps
      ensures InOrder(time) && |data| <= count && Logged(old(stamps), stamps, data)
      ensures Outcome(Desk(pendingMask, lastTs, count - |data|), data)
           == TurnsUpTo(NUM_SENSORS, Desk(old(pendingMask), old(lastTs), count), delays, time)
    {
      data := [];
      ghost var desk := Desk(pendingMask, lastTs, count);
      var left, i := count, 0;
      LogNothing(stamps);
      while left != 0 && i < NUM_SENSORS
        invariant InOrder(time) && 0 <= left == count - |data| && 0 <= i <= NUM_SENSORS
        invariant Logged(old(stamps), stamps, data)
        invariant Outcome(Desk(pendingMask, lastTs, left), data) == TurnsUpTo(i, desk, delays, time)
      {
        NextTurn(i, desk, delays, time);
        if pendingMask[i] {
          ghost var before := stamps;
          var out := OneTurn(i, time, left);
          LoggedConcat(old(stamps), before, stamps, data, out);
          data := data + out;
          left := left - |out|;
        } else {
          assert data + [] == data;
        }
        i := i + 1;
      }
      NoMoreTurns(i, NUM_SENSORS, desk, delays, time);
    }

    /** readSensorData: sensors the ioctl reports become pending; then the clock is read. */
    method Mark()
      requires Monotone(clock) && InOrder(Latest(clock, ticks))
      modifies this`pendingMask, this`ticks
      ensures InOrder(Latest(clock, ticks)) && ticks == old(ticks) + 1
              && pendingMask == Marked(old(pendingMask), updated(old(ticks)))
    {
      pendingMask := Marked(pendingMask, updated(ticks));
      ticks := ticks + 1;
    }

    /** What the driver did since it had `mask` pending and `last` as last stamps, with a budget of `count`: nothing while no
        sensor is active, and otherwise the turns of every SYN since the `from`-th, in order. */
    ghost predicate Did(mask: seq<bool>, last: seq<int>, count: nat, from: nat, data: seq<Stamp>)
      reads this
    {
      && from <= ticks && |data| <= count
      && if activeSensors == {} then data == [] && lastTs == last
         else Outcome(Desk(pendingMask, lastTs, count - |data|), data)
              == SynRun(Desk(mask, last, count), delays, clock, updated, from, ticks)
    }

    /** A call. It takes the events in order, every SYN it gets to see is one clock reading and one round of turns, and it
        steps past the end of the ring exactly when it has budget left and an unexpected event is the last it comes to;
        the model follows the source up to there. With a sensor active and budget left, no sensor stays pending, and
        the stamps of every sensor end with the clock reading of the last SYN of the call that reported it. */
    method ReadEvents(k: KernelRead, count: int) returns (r: int, data: seq<Stamp>, overrun: bool)
      requires Valid() && ReadFits(k, ring.free) && forall j :: 0 <= j <= GYRO ==> delays[j] > 0
      modifies this`lastTs, this`pendingMask, this`stamps, this`ticks, ring, ring.buffer
      ensures Valid() && Logged(old(stamps), stamps, data)
      ensures ring.arrived == old(ring.arrived) + (if count < 1 then [] else Accepted(k))
      ensures count < 1 ==> r == -EINVAL && data == [] && !overrun
      ensures count >= 1 ==> var filled := FillResult(k, old(ring.free));
                             if filled < 0 then r == filled && data == [] && !overrun else r == |data| <= count
      ensures r >= 0 ==> var q := old(ring.Contents()) + Accepted(k);
                && (overrun ==> |data| < count) && ticks <= old(ticks) + SynsSeen(q)
                && (|data| < count ==> (overrun <==> Overruns(q)) && ticks == old(ticks) + SynsSeen(q)
                                       && ring.Contents() == [])
      ensures r >= 0 ==> Did(old(pendingMask), old(lastTs), count, old(ticks), data)
      ensures r >= 0 && |data| < count && activeSensors != {} ==> forall i :: 0 <= i < NUM_SENSORS ==>
        RunServedOne(i, old(pendingMask)[i], pendingMask[i], Gather(Only(i), data), clock, updated, old(ticks), ticks)
    {
      data, overrun := [], false;
      if count < 1 {
        LogNothing(stamps);
        return -EINVAL, data, overrun;
      }
      var n := ring.Fill(k);
      if n < 0 {
        LogNothing(stamps);
        return n, data, overrun;
      }
      data, overrun := Drain(count);
      RunServes(Desk(old(pendingMask), old(lastTs), count), delays, clock, updated, old(ticks), ticks);
      return |data|, data, overrun;
    }

    method Drain(count: nat) returns (data: seq<Stamp>, overrun: bool)
      requires Valid() && count > 0 && forall j :: 0 <= j <= GYRO ==> delays[j] > 0
      modifies this`lastTs, this`pendingMask, this`stamps, this`ticks, ring`curr, ring`free, ring`consumed
      ensures Valid() && Logged(old(stamps), stamps, data)
      ensures Did(old(pendingMask), old(lastTs), count, old(ticks), data)
      ensures var q := old(ring.Contents());
                && (overrun ==> |data| < count) && ticks <= old(ticks) + SynsSeen(q)
                && (|data| < count ==> (overrun <==> Overruns(q)) && ticks == old(ticks) + SynsSeen(q)
                                       && ring.Contents() == [])
    {
      data, overrun := [], false;
      var left := count;
      ghost var q := ring.Contents();
      LogNothing(stamps);
      while left != 0
        invariant Valid() && 0 <= left == count - |data| && Logged(old(stamps), stamps, data)
        invariant ticks + SynsSeen(ring.Contents()) == old(ticks) + SynsSeen(q)
        invariant Overruns(ring.Contents()) <==> Overruns(q)
        invariant Did(old(pendingMask), old(lastTs), count, old(ticks), data)
        decreases |ring.Contents()|
      {
        var more, e := ring.ReadEvent();
        if !more {
          break;
        }
        ghost var before := stamps;
        var out;
        out, overrun := Pass(e, left, count, old(pendingMask), old(lastTs), old(ticks), data);
        LoggedConcat(old(stamps), before, stamps, data, out);
        data := data + out;
        left := left - |out|;
        if overrun {
          break;
        }
      }
    }

    /** One turn of the loop. */
    method Pass(e: InputEvent, left: nat, ghost count: nat, ghost mask: seq<bool>, ghost last: seq<int>, ghost from: nat,
        ghost data: seq<Stamp>)
      returns (out: seq<Stamp>, overrun: bool)
      requires Valid() && ring.Contents() != [] && e == ring.Contents()[0]
      requires left > 0 && forall j :: 0 <= j <= GYRO ==> delays[j] > 0
      requires Did(mask, last, count, from, data) && left == count - |data|
      modifies this`lastTs, this`pendingMask, this`stamps, this`ticks, ring`curr, ring`free, ring`consumed
      ensures Valid() && Logged(old(stamps), stamps, out) && |out| <= left
      ensures Did(mask, last, count, from, data + out)
      ensures var q, rest := old(ring.Contents()), ring.Contents();
              && ticks + SynsSeen(rest) == old(ticks) + SynsSeen(q)
              && if overrun then Overruns(q) && rest == [] && out == [] else (Overruns(rest) <==> Overruns(q)) && |rest| < |q|
    {
      out := Handle(e, left, count, mask, last, from, data);
      overrun := false;
      ring.Next();
      if !Expected(e) {
        var more, _ := ring.ReadEvent();
        if more {
          ring.Next();
        } else {
          overrun := true;
        }
      }
    }

    method Handle(e: InputEvent, left: nat, ghost count: nat, ghost mask: seq<bool>, ghost last: seq<int>, ghost from: nat,
        ghost data: seq<Stamp>)
      returns (out: seq<Stamp>)
      requires Monotone(clock) && InOrder(Latest(clock, ticks))
      requires left > 0 && forall j :: 0 <= j <= GYRO ==> delays[j] > 0
      requires Did(mask, last, count, from, data) && left == count - |data|
      modifies this`lastTs, this`pendingMask, this`stamps, this`ticks
      ensures InOrder(Latest(clock, ticks)) && Logged(old(stamps), stamps, out) && |out| <= left
      ensures ticks == old(ticks) + if e.kind == EV_SYN then 1 else 0
      ensures e.kind != EV_SYN ==> out == []
      ensures Did(mask, last, count, from, data + out)
    {
      out := [];
      LogNothing(stamps);
      if e.kind == EV_SYN {
        if activeSensors != {} {
          OneMoreRun(Desk(mask, last, count), Outcome(Desk(pendingMask, lastTs, left), data), delays, clock, updated,
                     from, ticks);
        }
        out := Syn(left);
      }
      assert out == [] ==> data + out == data;
    }
  }

  lemma {:induction false} LogNothing(stamps: seq<seq<int>>)
    requires |stamps| == NUM_SENSORS
    ensures Logged(stamps, stamps, [])
  {
  }

  lemma {:induction false} OnlyFirstPending(d: Desk, delays: seq<int>, time: int) returns (t: Outcome<Desk, Stamp>)
    requires Sized(d, delays) && d.mask[0] && d.budget > 0 && forall j :: 0 < j < NUM_SENSORS ==> !d.mask[j]
    ensures t == TurnStep(delays, time)(d, 0) == TurnsUpTo(NUM_SENSORS, d, delays, time)
    ensures |t.state.mask| == NUM_SENSORS && forall j :: 0 <= j < NUM_SENSORS ==> !t.state.mask[j]
  {
    t := TurnStep(delays, time)(d, 0);
    NextTurn(0, d, delays, time);
    assert [] + t.out == t.out;
    NoMoreTurns(1, NUM_SENSORS, d, delays, time);
  }

  /** With only the first sensor reported, a SYN is that sensor's turn. */
  method AccelerometerSyn(d: HwmsenDriver, count: nat, ghost ts: seq<int>)
    requires d.Valid() && count > 0 && d.activeSensors != {} && d.updated(d.ticks) == {0}
    requires (forall j :: 0 <= j <= GYRO ==> d.delays[j] > 0) && forall j :: 0 <= j < NUM_SENSORS ==> !d.pendingMask[j]
    requires ts == Cut(Full(d.lastTs[0], d.delays[0], d.clock(d.ticks)), count)
    modifies d`lastTs, d`pendingMask, d`stamps, d`ticks
    ensures d.Valid() && d.ticks == old(d.ticks) + 1 && forall j :: 0 <= j < NUM_SENSORS ==> !d.pendingMask[j]
    ensures d.stamps[0] == old(d.stamps)[0] + ts && d.lastTs[0] == ts[|ts| - 1]
  {
    ghost var t := OnlyFirstPending(Desk(Marked(d.pendingMask, {0}), d.lastTs, count), d.delays, d.clock(d.ticks));
    var data := d.Syn(count);
    OnlyStamped(0, 0, ts);
  }

  /** A stamp repeated: with the delay of 200 ms a driver starts with, SYNs at 1 s and at 1.4 s make up samples for 1 s and
      1.2 s before the second reading. */
  method StampRepeats() returns (d: HwmsenDriver)
    ensures fresh(d) && d.Valid() && d.stamps[0] == [1000000000] + [1000000000, 1200000000, 1400000000]
  {
    d := new HwmsenDriver((n: nat) => if n == 0 then 1000000000 else 1400000000, (n: nat) => {0});
    var _ := d.Enable(0, 1, true);
    GapOfTwo();
    AccelerometerSyn(d, 10, [1000000000]);
    AccelerometerSyn(d, 10, [1000000000, 1200000000, 1400000000]);
  }

  lemma {:induction false} GapOfTwo()
    ensures Full(0, 200000000, 1000000000) == [1000000000]
    ensures Full(1000000000, 200000000, 1400000000) == [1000000000, 1200000000, 1400000000]
  {
    assert Fabricated(1400000000, 200000000, 1) == [1200000000];
    assert Fabricated(1400000000, 200000000, 2) == [1000000000, 1200000000];
  }

  /** A step past the end of the ring: one event of any other type, read by a new driver. */
  method LoneEventOverruns(e: InputEvent, clock: nat -> int, updated: nat -> set<int>)
      returns (d: HwmsenDriver, overrun: bool)
    requires !Expected(e) && Monotone(clock)
    ensures fresh(d) && d.Valid() && overrun
  {
    d := new HwmsenDriver(clock, updated);
    assert |d.ring.Contents()| == RING_SIZE - d.ring.free;
    assert [] + [e] == [e] && SynsSeen([e]) == 0;
    var r, data;
    r, data, overrun := d.ReadEvents(Delivered([e]), 1);
  }
}
