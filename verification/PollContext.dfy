/** The poll multiplexer: drains the drivers into the caller's buffer under one budget and decides when to wait. */
module PollContext {
  import opened InputEvents
  import opened BatchFlush
  import opened Stream

  const ID_OFFSET := 1
  const PIPE_SIZE := 65536

  /** Internal handles that belong to some driver; the others are ignored. */
  predicate HasDriver(handle: int) {
    0 <= handle <= 11 || 13 <= handle <= 24 || 34 <= handle <= 37 || 40 <= handle <= 44
  }

  /** The caller's number for a sensor is the internal one plus the offset, in readings and in flush completions. */
  function Publish(e: SensorEvent): (p: SensorEvent)
    ensures p.sensor == e.sensor + 1 && (p.Reading? <==> e.Reading?)
    ensures if e.Reading? then p.sample == e.sample else p.time == e.time
  {
    match e
    case Reading(sensor, sample) => Reading(sensor + ID_OFFSET, sample)
    case FlushComplete(sensor, time) => FlushComplete(sensor + ID_OFFSET, time)
  }

  /** A ring driver as the poller sees it: events still in the kernel, events read into the ring but not dealt with, all
      events read since the poller took over, all it put out since, and the decoder it should be. */
  datatype Driver = Driver(
    capacity: nat, kernel: seq<InputEvent>, ring: seq<InputEvent>,
    arrived: seq<InputEvent>, emitted: seq<SensorEvent>, decode: seq<InputEvent> -> seq<SensorEvent>)

  /** More input never takes back output. */
  ghost predicate Growing(decode: seq<InputEvent> -> seq<SensorEvent>) {
    forall a, b {:trigger decode(a), decode(b)} :: a <= b ==> decode(a) <= decode(b)
  }

  /** What the driver put out is the decoder's output over what it read, as far as it got; with an empty ring, all of it. */
  ghost predicate Faithful(d: Driver) {
    && Growing(d.decode) && |d.ring| <= d.capacity
    && d.emitted <= d.decode(d.arrived) && (d.ring == [] ==> d.emitted == d.decode(d.arrived))
  }

  predicate Acceptable(count: nat, out: seq<SensorEvent>, unread: seq<InputEvent>, emitted: seq<SensorEvent>,
        due: seq<SensorEvent>) {
    SpendsExactly(count, out, unread) && emitted + out <= due && (unread == [] ==> emitted + out == due)
  }

  /** A driver's turn: it takes the next `took` events from the kernel, deals with the first `used` in its ring, and puts
      out `data`. */
  ghost predicate Reads(before: Driver, after: Driver, took: nat, used: nat, count: nat, data: seq<SensorEvent>) {
    && after.capacity == before.capacity && after.decode == before.decode
    && took <= |before.kernel| && used <= |before.ring| + took
    && after.kernel == before.kernel[took..] && after.ring == (before.ring + before.kernel[..took])[used..]
    && after.arrived == before.arrived + before.kernel[..took] && after.emitted == before.emitted + data
    && SpendsExactly(count, data, after.ring) && Faithful(after)
  }

  ghost predicate Turn(before: Driver, after: Driver, count: nat, data: seq<SensorEvent>) {
    exists took: nat, used: nat :: Reads(before, after, took, used, count, data)
  }

  /** Whatever a faithful driver finds in the kernel, it can take such a turn. */
  lemma {:induction false} CanRead(d: Driver, took: nat, count: nat) returns (used: nat, out: seq<SensorEvent>)
    requires Faithful(d) && took <= |d.kernel| && |d.ring| + took <= d.capacity
    ensures var queue := d.ring + d.kernel[..took];
            used <= |queue| && Acceptable(count, out, queue[used..], d.emitted, d.decode(d.arrived + d.kernel[..took]))
  {
    var queue, due := d.ring + d.kernel[..took], d.decode(d.arrived + d.kernel[..took]);
    assert d.arrived <= d.arrived + d.kernel[..took];
    var rest := due[|d.emitted|..];
    assert d.emitted + rest == due;
    if queue == [] {
      assert d.arrived + d.kernel[..took] == d.arrived;
    }
    if |rest| <= count {
      used, out := |queue|, rest;
    } else {
      used, out := 0, rest[..count];
      assert d.emitted + out == due[..|d.emitted| + count];
    }
  }

  const BATCH := -1

  /** An event the poller got, and from which driver. */
  datatype Entry = Entry(source: int, event: SensorEvent)

  function Tagged(source: int, data: seq<SensorEvent>): (log: seq<Entry>)
    ensures |log| == |data| && forall i :: 0 <= i < |data| ==> log[i] == Entry(source, data[i])
  {
    seq(|data|, i requires 0 <= i < |data| => Entry(source, data[i]))
  }

  function From(i: int): Entry -> seq<SensorEvent> {
    (x: Entry) => if x.source == i then [x.event] else []
  }

  lemma {:induction false} FromTagged(i: int, source: int, data: seq<SensorEvent>)
    ensures Gather(From(i), Tagged(source, data)) == if i == source then data else []
  {
    if data != [] {
      var n := |data| - 1;
      FromTagged(i, source, data[..n]);
      assert Tagged(source, data) == Tagged(source, data[..n]) + [Entry(source, data[n])];
      GatherOne(From(i), Tagged(source, data[..n]), Entry(source, data[n]));
    }
  }

  /** The pipeline: for every driver, the events the poller got from it are exactly those it put out, and it is faithful to
      its decoder. */
  ghost predicate Tracked(ds: seq<Driver>, log: seq<Entry>) {
    forall i :: 0 <= i < |ds| ==> Faithful(ds[i]) && Gather(From(i), log) == ds[i].emitted
  }

  lemma {:induction false} TrackTurn(ds: seq<Driver>, log: seq<Entry>, i: nat, after: Driver, data: seq<SensorEvent>)
    requires Tracked(ds, log) && i < |ds| && Faithful(after) && after.emitted == ds[i].emitted + data
    ensures Tracked(ds[i := after], log + Tagged(i, data))
  {
    forall j | 0 <= j < |ds| ensures Faithful(ds[i := after][j])
                                  && Gather(From(j), log + Tagged(i, data)) == ds[i := after][j].emitted {
      GatherConcat(From(j), log, Tagged(i, data));
      FromTagged(j, i, data);
    }
  }

  lemma {:induction false} TrackFlushes(ds: seq<Driver>, log: seq<Entry>, data: seq<SensorEvent>)
    requires Tracked(ds, log)
    ensures Tracked(ds, log + Tagged(BATCH, data))
  {
    forall j | 0 <= j < |ds| ensures Gather(From(j), log + Tagged(BATCH, data)) == ds[j].emitted {
      GatherConcat(From(j), log, Tagged(BATCH, data));
      FromTagged(j, BATCH, data);
    }
  }

  /** The same drivers later: nothing the kernel ever held for them, or handed over, is gone. */
  ghost predicate Later(a: seq<Driver>, b: seq<Driver>) {
    |a| == |b| && forall i :: 0 <= i < |a| ==> LaterDriver(a[i], b[i])
  }

  ghost predicate LaterDriver(a: Driver, b: Driver) {
    b.decode == a.decode && b.capacity == a.capacity && a.arrived + a.kernel <= b.arrived + b.kernel
  }

  lemma {:induction false} LaterByNothing(ds: seq<Driver>)
    ensures Later(ds, ds)
  {
  }

  lemma {:induction false} LaterByOne(ds: seq<Driver>, i: nat, d: Driver)
    requires i < |ds| && LaterDriver(ds[i], d)
    ensures Later(ds, ds[i := d])
  {
  }

  lemma {:induction false} LaterStill(a: seq<Driver>, b: seq<Driver>, c: seq<Driver>)
    requires Later(a, b) && Later(b, c)
    ensures Later(a, c)
  {
    forall i | 0 <= i < |a| ensures LaterDriver(a[i], c[i]) {
      assert LaterDriver(a[i], b[i]) && LaterDriver(b[i], c[i]);
    }
  }

  lemma {:induction false} TurnIsLater(before: Driver, after: Driver, count: nat, data: seq<SensorEvent>)
    requires Turn(before, after, count, data)
    ensures LaterDriver(before, after) && after.arrived + after.kernel == before.arrived + before.kernel
  {
    var took: nat, used: nat :| Reads(before, after, took, used, count, data);
    assert before.kernel[..took] + before.kernel[took..] == before.kernel;
    Associate(before.arrived, before.kernel[..took], before.kernel[took..]);
  }

  /** What may happen while the poller waits: input arrives, other threads flush, or poll() fails. */
  datatype Reply = Fails(errno: nat) | Wakes(arrivals: seq<seq<InputEvent>>, flushes: seq<int>)

  /** How far a call got when the replies it was given ran out, failed, or let it return. */
  datatype Result = Returned(n: nat) | PollFailed(errno: nat) | Waiting

  /** From position `base` on, the log starts with the completions of `hs`. */
  ghost predicate Leads(log: seq<Entry>, base: nat, hs: seq<int>, clock: nat -> int) {
    base + |hs| <= |log| && forall i :: 0 <= i < |hs| ==> log[base + i] == Entry(BATCH, FlushComplete(hs[i], clock(i)))
  }

  lemma {:induction false} NowLeads(log: seq<Entry>, data: seq<SensorEvent>, hs: seq<int>, clock: nat -> int)
    requires |data| == |hs| && forall i :: 0 <= i < |hs| ==> data[i] == FlushComplete(hs[i], clock(i))
    ensures Leads(log + Tagged(BATCH, data), |log|, hs, clock)
  {
  }

  predicate Fits(r: Reply, drivers: nat) {
    r.Wakes? ==> |r.arrivals| == drivers && forall i :: 0 <= i < |r.flushes| ==> 0 <= r.flushes[i] < MAX_HANDLE
  }

  datatype Status = Ready | Idle | Broken(errno: nat) | Stuck

  /** Arrivals in the kernel change nothing else. */
  lemma {:induction false} LaterByArrivals(a: seq<Driver>, b: seq<Driver>, arrivals: seq<seq<InputEvent>>)
    requires |a| == |b| == |arrivals|
    requires forall i :: 0 <= i < |a| ==> b[i] == a[i].(kernel := a[i].kernel + arrivals[i])
    ensures Later(a, b)
  {
    forall i | 0 <= i < |a| ensures LaterDriver(a[i], b[i]) {
      Associate(a[i].arrived, a[i].kernel, arrivals[i]);
    }
  }

  lemma {:induction false} OneByOne(accepted: multiset<int>, handles: seq<int>)
    requires handles != []
    ensures (accepted + multiset{handles[0]}) + multiset(handles[1..]) == accepted + multiset(handles)
  {
    assert handles == [handles[0]] + handles[1..];
  }

  ghost predicate AllEmpty(ds: seq<Driver>) {
    forall i :: 0 <= i < |ds| ==> ds[i].ring == []
  }

  /** A driver with events left in its ring still has POLLIN recorded, and no driver before it has. */
  ghost predicate Leftover(ds: seq<Driver>, revents: seq<bool>) {
    |revents| == |ds|
    && forall i :: 0 <= i < |ds| && ds[i].ring != [] ==> revents[i] && forall j :: 0 <= j < i ==> !revents[j]
  }

  /** The turn of the first driver recorded, which is forgotten only with its ring empty. */
  lemma {:induction false} LeftoverKept(ds: seq<Driver>, revents: seq<bool>, i: nat, d: Driver, r: bool)
    requires Leftover(ds, revents) && i < |ds| && revents[i] && (forall j :: 0 <= j < i ==> !revents[j])
    requires d.ring != [] ==> r
    ensures Leftover(ds[i := d], revents[i := r])
  {
  }

  // ---- When a call of poll() comes back ----

  /** A reply that brings nothing: no input, no flush. */
  ghost predicate Quiet(r: Reply) {
    r.Wakes? && r.flushes == [] && forall i :: 0 <= i < |r.arrivals| ==> r.arrivals[i] == []
  }

  /** The replies from `from` up to `upTo` were waited through: that takes a poller with nothing in hand, nothing ready at the
      start (`hot`), and replies that bring nothing. */
  ghost predicate Waited(replies: seq<Reply>, from: nat, upTo: nat, mayWait: bool, hot: bool) {
    && from <= upTo <= |replies| && (from < upTo ==> mayWait && !hot)
    && forall i :: from <= i < upTo ==> Quiet(replies[i])
  }

  /** Exactly how a call of poll() ends: at the first failure or at the first reply that finds or brings something, if it may
      wait; at the first reply whatever it brings, if not; and never, if the replies run out before. */
  ghost predicate Ends(replies: seq<Reply>, from: nat, mayWait: bool, hot: bool, k: nat, status: Status) {
    match status
    case Ready =>
      from < k <= |replies| && replies[k - 1].Wakes? && (hot || !Quiet(replies[k - 1]))
      && Waited(replies, from, k - 1, mayWait, hot)
    case Idle => k == from + 1 <= |replies| && !mayWait && !hot && Quiet(replies[from])
    case Broken(e) => k < |replies| && replies[k] == Fails(e) && Waited(replies, from, k, mayWait, hot)
    case Stuck => k == |replies| && Waited(replies, from, k, mayWait, hot)
  }

  /** Reply by reply. */
  ghost function End(replies: seq<Reply>, from: nat, mayWait: bool, hot: bool): (nat, Status)
    requires from <= |replies|
    decreases |replies| - from
  {
    if from == |replies| then (from, Stuck)
    else if replies[from].Fails? then (from, Broken(replies[from].errno))
    else if hot || !Quiet(replies[from]) then (from + 1, Ready)
    else if !mayWait then (from + 1, Idle)
    else End(replies, from + 1, mayWait, hot)
  }

  lemma {:induction false} EndsThere(replies: seq<Reply>, from: nat, mayWait: bool, hot: bool)
    requires from <= |replies|
    ensures var (k, status) := End(replies, from, mayWait, hot); Ends(replies, from, mayWait, hot, k, status)
    decreases |replies| - from
  {
    if from < |replies| && Quiet(replies[from]) && !hot && mayWait {
      EndsThere(replies, from + 1, mayWait, hot);
    }
  }

  /** There is one way only. */
  lemma {:induction false} EndsOneWay(replies: seq<Reply>, from: nat, mayWait: bool, hot: bool, k: nat, status: Status,
      k': nat, status': Status)
    requires Ends(replies, from, mayWait, hot, k, status) && Ends(replies, from, mayWait, hot, k', status')
    ensures k == k' && status == status'
  {
  }

  /** One call of poll(): the replies it used, whether events were in hand, whether something was ready at its start, and how
      it ended. */
  datatype Poll = Poll(from: nat, upTo: nat, inHand: bool, hot: bool, status: Status)

  /** The calls of poll() follow one another through the replies, and each ends the one way it can. */
  ghost predicate Chain(replies: seq<Reply>, trace: seq<Poll>, upTo: nat) {
    if trace == [] then upTo == 0 else
    var p := trace[|trace| - 1];
    && p.upTo == upTo && Ends(replies, p.from, !p.inHand, p.hot, p.upTo, p.status)
    && Chain(replies, trace[..|trace| - 1], p.from)
  }

  ghost predicate AllReady(trace: seq<Poll>) { forall i :: 0 <= i < |trace| ==> trace[i].status == Ready }

  lemma {:induction false} ChainOne(replies: seq<Reply>, trace: seq<Poll>, p: Poll)
    requires Chain(replies, trace, p.from) && Ends(replies, p.from, !p.inHand, p.hot, p.upTo, p.status)
    ensures Chain(replies, trace + [p], p.upTo)
  {
    assert (trace + [p])[..|trace|] == trace;
  }

  /** What the result says about the last call of poll(); all calls before it found something ready. */
  ghost predicate Concludes(trace: seq<Poll>, res: Result, count: nat) {
    match res
    case Returned(n) =>
      (n == count && AllReady(trace))
      || (0 < n < count && trace != [] && AllReady(trace[..|trace| - 1]) && trace[|trace| - 1].status == Idle)
    case PollFailed(e) => trace != [] && AllReady(trace[..|trace| - 1]) && trace[|trace| - 1].status == Broken(e)
    case Waiting => trace != [] && AllReady(trace[..|trace| - 1]) && trace[|trace| - 1].status == Stuck
  }

  /** Over a whole call: no reply used up is a failure, and one that brings something ends the poll() it answers, as ready. */
  lemma {:induction false} NothingSleptThrough(replies: seq<Reply>, trace: seq<Poll>, upTo: nat, i: nat) returns (j: nat)
    requires Chain(replies, trace, upTo) && i < upTo
    ensures upTo <= |replies| && j < |trace| && trace[j].from <= i < trace[j].upTo && replies[i].Wakes?
    ensures !Quiet(replies[i]) ==> trace[j].upTo == i + 1 && trace[j].status == Ready
  {
    j := |trace| - 1;
    if i < trace[j].from {
      j := NothingSleptThrough(replies, trace[..j], trace[j].from, i);
    }
  }

  /** A call left waiting has used every reply, and was given nothing since it last read the drivers; a call that fails does
      so at the first failure there is. */
  lemma {:induction false} WaitingOrFailed(replies: seq<Reply>, trace: seq<Poll>, upTo: nat, res: Result, count: nat, i: nat)
    requires Chain(replies, trace, upTo) && Concludes(trace, res, count) && !res.Returned?
    ensures if res.Waiting? then upTo == |replies| else upTo < |replies| && replies[upTo] == Fails(res.errno)
    ensures trace[|trace| - 1].from <= i < upTo ==> Quiet(replies[i])
    ensures i < upTo ==> replies[i].Wakes?
  {
    if i < upTo {
      var _ := NothingSleptThrough(replies, trace, upTo, i);
    }
  }

  function Least(a: nat, b: nat): nat { if a < b then a else b }

  ghost predicate NoneRecorded(revents: seq<bool>) { forall i :: 0 <= i < |revents| ==> !revents[i] }

  ghost predicate AllDrained(ds: seq<Driver>) { forall i :: 0 <= i < |ds| ==> ds[i].kernel == [] }

  /** The drivers after a reply: what it brings is behind what the kernel held. */
  function Arrive(ds: seq<Driver>, arrivals: seq<seq<InputEvent>>): (r: seq<Driver>)
    ensures |r| == |ds|
    ensures |arrivals| == |ds| ==> forall i :: 0 <= i < |ds| ==> r[i] == ds[i].(kernel := ds[i].kernel + arrivals[i])
  {
    if |arrivals| == |ds| then seq(|ds|, i requires 0 <= i < |ds| => ds[i].(kernel := ds[i].kernel + arrivals[i])) else ds
  }

  function Recorded(ds: seq<Driver>): (revents: seq<bool>)
    ensures |revents| == |ds| && forall i :: 0 <= i < |ds| ==> (revents[i] <==> ds[i].kernel != [])
  {
    seq(|ds|, i requires 0 <= i < |ds| => ds[i].kernel != [])
  }

  /** What poll() can change: the drivers, the pipe, and the flushes counted. */
  datatype Scene = Scene(drivers: seq<Driver>, pipe: nat, accepted: multiset<int>)

  /** A reply: its input is in the kernel, its flushes are counted, each has written a byte, and one byte is taken off. */
  function After(s: Scene, r: Reply): Scene {
    if r.Fails? then s else
    var bytes := Least(s.pipe + |r.flushes|, PIPE_SIZE);
    Scene(Arrive(s.drivers, r.arrivals), if bytes > 0 then bytes - 1 else 0, s.accepted + multiset(r.flushes))
  }

  /** A call of poll() leaves the scene as it was, but for the reply it came back with. */
  function Left(s: Scene, replies: seq<Reply>, k: nat, status: Status): Scene {
    if status.Ready? || status.Idle? then (if 0 < k <= |replies| then After(s, replies[k - 1]) else s) else s
  }

  ghost predicate IsHot(s: Scene) { s.pipe > 0 || !AllDrained(s.drivers) }

  lemma {:induction false} NothingArrived(s: Scene, r: Reply)
    requires Quiet(r) && |r.arrivals| == |s.drivers| && !IsHot(s)
    ensures After(s, r) == s
  {
    var after := Arrive(s.drivers, r.arrivals);
    forall i | 0 <= i < |after| ensures after[i] == s.drivers[i] {
      assert s.drivers[i].kernel + [] == s.drivers[i].kernel;
    }
    assert after == s.drivers;
    assert s.accepted + multiset([]) == s.accepted;
  }

  /** What poll() reports: something is ready exactly when it was before, or the reply brings it. */
  lemma {:induction false} SomethingReady(s: Scene, r: Reply)
    requires r.Wakes? && |r.arrivals| == |s.drivers|
    ensures AllDrained(Arrive(s.drivers, r.arrivals)) && s.pipe + |r.flushes| == 0 <==> !IsHot(s) && Quiet(r)
  {
    var after := Arrive(s.drivers, r.arrivals);
    if AllDrained(after) {
      forall i | 0 <= i < |after| ensures s.drivers[i].kernel == [] && r.arrivals[i] == [] {
        assert after[i].kernel == s.drivers[i].kernel + r.arrivals[i];
      }
    }
  }

  /** Together. */
  lemma {:induction false} ReadyExactly(s: Scene, r: Reply)
    requires r.Wakes? && |r.arrivals| == |s.drivers|
    ensures var ds := Arrive(s.drivers, r.arrivals);
            var ready := Least(s.pipe + |r.flushes|, PIPE_SIZE) > 0 || !AllDrained(ds);
            (ready <==> IsHot(s) || !Quiet(r)) && (!ready ==> After(s, r) == s && NoneRecorded(Recorded(ds)))
  {
    SomethingReady(s, r);
    if !IsHot(s) && Quiet(r) {
      NothingArrived(s, r);
    }
  }

  /** Arrivals keep drivers faithful and tracked, and rings empty. */
  lemma {:induction false} ArriveKeeps(ds: seq<Driver>, arrivals: seq<seq<InputEvent>>, log: seq<Entry>)
    requires |ds| == |arrivals| && AllEmpty(ds) && Tracked(ds, log)
    ensures var after := Arrive(ds, arrivals);
            AllEmpty(after) && Tracked(after, log) && Later(ds, after) && Leftover(after, Recorded(after))
  {
    LaterByArrivals(ds, Arrive(ds, arrivals), arrivals);
  }

  /** Nothing is owed once everything accepted is delivered. */
  lemma {:induction false} NothingOwed(b: BatchSensor)
    requires b.Valid()
    ensures b.accepted == b.delivered <==> Owed(b.Requests()) == []
  {
    OwedNothing(b.Requests(), 0);
    if b.accepted == b.delivered {
      assert forall h :: 0 <= h < MAX_HANDLE ==> b.accepted[h] == b.delivered[h] + b.Requests()[h];
    } else if Owed(b.Requests()) == [] {
      assert forall h: int :: b.accepted[h] == b.delivered[h];
    }
  }

  class Poller {
    const batch: BatchSensor
    var drivers: seq<Driver>
    var revents: seq<bool>
    var pipe: nat

    // The raw events drivers returned, in order, and where they came from.
    ghost var log: seq<Entry>

    ghost predicate Valid()
      reads this, batch, batch.flushSensorReq
    {
      pipe <= PIPE_SIZE && Leftover(drivers, revents) && batch.Valid() && batch.Signalled() && Tracked(drivers, log)
    }

    ghost function Now(): Scene
      reads this, batch
    {
      Scene(drivers, pipe, batch.accepted)
    }

    /** Something is ready already: a byte in the pipe, or input in the kernel. */
    ghost predicate Hot()
      reads this, batch
    {
      IsHot(Now())
    }

    constructor (batch: BatchSensor, drivers: seq<Driver>)
      requires batch.Valid() && batch.Signalled() && AllEmpty(drivers)
      requires forall i :: 0 <= i < |drivers| ==> Faithful(drivers[i]) && drivers[i].emitted == []
      ensures Valid() && this.batch == batch && this.drivers == drivers && pipe == 0 && log == []
      ensures forall i :: 0 <= i < |revents| ==> !revents[i]
    {
      this.batch, this.drivers := batch, drivers;
      revents := seq(|drivers|, i => false);
      pipe, log := 0, [];
    }

    /** The first `n` slots of the caller's buffer are the raw events since `base`, published. */
    ghost predicate Holds(buffer: array<SensorEvent>, base: nat, n: nat)
      reads this, buffer
    {
      n <= buffer.Length && |log| == base + n && forall j :: 0 <= j < n ==> buffer[j] == Publish(log[base + j].event)
    }

    /** poll__flush: the caller's handle is shifted, unknown ones are ignored, known ones counted and signalled. */
    method Flush(publicHandle: int) returns (r: int)
      requires Valid()
      modifies this`pipe, batch, batch.flushSensorReq
      ensures Valid() && r == 0
      ensures batch.delivered == old(batch.delivered)
      ensures if 1 <= publicHandle <= 12 || 14 <= publicHandle <= 25 || 35 <= publicHandle <= 38 || 41 <= publicHandle <= 45
              then pipe > 0 && batch.hasPendingEvent
                && batch.accepted == old(batch.accepted) + multiset{publicHandle - 1}
              else pipe == old(pipe) && batch.accepted == old(batch.accepted)
    {
      var handle := publicHandle - ID_OFFSET;
      if !HasDriver(handle) {
        return 0;
      }
      r := batch.Flush(handle);
      WriteByte();
    }

    method WriteByte()
      requires pipe <= PIPE_SIZE
      modifies this`pipe
      ensures pipe == Least(old(pipe) + 1, PIPE_SIZE)
    {
      if pipe < PIPE_SIZE {
        pipe := pipe + 1;
      }
    }

    /** Any faithful driver that spends exactly: it takes some of what the kernel has, as much as fits, and a turn. */
    method ReadDriver(i: nat, count: nat) returns (data: seq<SensorEvent>)
      requires i < |drivers| && Faithful(drivers[i])
      modifies this`drivers
      ensures |drivers| == |old(drivers)| && drivers == old(drivers)[i := drivers[i]]
      ensures Turn(old(drivers)[i], drivers[i], count, data)
    {
      var d := drivers[i];
      var took: nat :| took <= |d.kernel| && took <= d.capacity - |d.ring|;
      var queue, arrived := d.ring + d.kernel[..took], d.arrived + d.kernel[..took];
      ghost var u, o := CanRead(d, took, count);
      var used: nat, out: seq<SensorEvent> :|
        used <= |queue| && Acceptable(count, out, queue[used..], d.emitted, d.decode(arrived));
      var after := Driver(d.capacity, d.kernel[took..], queue[used..], arrived, d.emitted + out, d.decode);
      assert Acceptable(count, out, after.ring, d.emitted, after.decode(after.arrived));
      assert Reads(d, after, took, used, count, out);
      drivers := drivers[i := after];
      data := out;
    }

    /** Copies a driver's events behind those already there and shifts each one's handle, once. */
    method Place(buffer: array<SensorEvent>, at: nat, data: seq<SensorEvent>)
      requires at + |data| <= buffer.Length
      modifies buffer
      ensures forall j :: 0 <= j < at ==> buffer[j] == old(buffer[j])
      ensures forall j :: 0 <= j < |data| ==> buffer[at + j] == Publish(data[j])
    {
      forall j | 0 <= j < |data| { buffer[at + j] := data[j]; }
      for j := 0 to |data|
        invariant forall k :: 0 <= k < at ==> buffer[k] == old(buffer[k])
        invariant forall k :: 0 <= k < j ==> buffer[at + k] == Publish(data[k])
        invariant forall k :: j <= k < |data| ==> buffer[at + k] == data[k]
      {
        buffer[at + j] := Publish(buffer[at + j]);
      }
    }

    method Append(buffer: array<SensorEvent>, ghost base: nat, at: nat, ghost source: int, data: seq<SensorEvent>)
      requires Holds(buffer, base, at) && at + |data| <= buffer.Length
      modifies this`log, buffer
      ensures Holds(buffer, base, at + |data|) && log == old(log) + Tagged(source, data)
    {
      Place(buffer, at, data);
      log := log + Tagged(source, data);
    }

    /** The for-loop of pollEvents. Budget and events returned add up throughout; budget left over means that every
        ring is empty, no POLLIN is recorded and no flush is owed; and completions owed come out first. */
    method ReadAll(buffer: array<SensorEvent>, ghost base: nat, at: nat, budget: nat, clock: nat -> int)
      returns (pos: nat, left: nat)
      requires Valid() && Holds(buffer, base, at) && at + budget <= buffer.Length
      modifies this`drivers, this`revents, this`log, batch, batch.flushSensorReq, buffer
      ensures Valid() && Holds(buffer, base, pos) && pos + left == at + budget
      ensures old(log) <= log && Later(old(drivers), drivers)
      ensures left > 0 ==> AllEmpty(drivers) && Owed(batch.Requests()) == []
      ensures left > 0 ==> forall i :: 0 <= i < |revents| ==> !revents[i]
      ensures var owed := old(Owed(batch.Requests())); Leads(log, |old(log)|, owed[..Answered(owed, budget)], clock)
    {
      pos, left := ReadFlushes(buffer, base, at, budget, clock);
      pos, left := ReadRings(buffer, base, pos, left);
    }

    /** The loop's first turn: the batch driver is read when it says it has something pending. */
    method ReadFlushes(buffer: array<SensorEvent>, ghost base: nat, at: nat, budget: nat, clock: nat -> int)
      returns (pos: nat, left: nat)
      requires Valid() && Holds(buffer, base, at) && at + budget <= buffer.Length
      modifies this`log, batch, batch.flushSensorReq, buffer
      ensures Valid() && Holds(buffer, base, pos) && pos + left == at + budget && old(log) <= log
      ensures left > 0 ==> Owed(batch.Requests()) == []
      ensures var owed := old(Owed(batch.Requests())); Leads(log, |old(log)|, owed[..Answered(owed, budget)], clock)
    {
      pos, left := at, budget;
      if left != 0 && batch.hasPendingEvent {
        var n := AnswerFlushes(buffer, base, pos, left, clock);
        pos, left := pos + n, left - n;
      } else {
        assert Answered(Owed(batch.Requests()), budget) == 0;
      }
    }

    method AnswerFlushes(buffer: array<SensorEvent>, ghost base: nat, at: nat, left: nat,
          clock: nat -> int) returns (n: nat)
      requires Valid() && Holds(buffer, base, at) && at + left <= buffer.Length && batch.hasPendingEvent
      modifies this`log, batch, batch.flushSensorReq, buffer
      ensures Valid() && n <= left && Holds(buffer, base, at + n) && old(log) <= log
      ensures n < left ==> Owed(batch.Requests()) == []
      ensures var owed := old(Owed(batch.Requests())); Leads(log, |old(log)|, owed[..Answered(owed, left)], clock)
    {
      ghost var owed := Owed(batch.Requests());
      FlagCoversOwed(batch.Requests(), batch.hasPendingEvent, left);
      var data := batch.ReadEvents(left, clock);
      n := |data|;
      TrackFlushes(drivers, log, data);
      NowLeads(log, data, owed[..n], clock);
      Append(buffer, base, at, BATCH, data);
    }

    /** The loop's other turns. */
    method ReadRings(buffer: array<SensorEvent>, ghost base: nat, at: nat, budget: nat) returns (pos: nat, left: nat)
      requires Valid() && Holds(buffer, base, at) && at + budget <= buffer.Length
      modifies this`drivers, this`revents, this`log, buffer
      ensures Valid() && Holds(buffer, base, pos) && pos + left == at + budget
      ensures old(log) <= log && Later(old(drivers), drivers)
      ensures left > 0 ==> AllEmpty(drivers) && (forall i :: 0 <= i < |revents| ==> !revents[i])
    {
      pos, left := at, budget;
      var i := 0;
      while left != 0 && i < |drivers|
        invariant Valid() && i <= |drivers| && Holds(buffer, base, pos) && pos + left == at + budget
        invariant old(log) <= log && Later(old(drivers), drivers)
        invariant left > 0 ==> forall j :: 0 <= j < i ==> drivers[j].ring == [] && !revents[j]
      {
        ghost var before := drivers;
        var n := ReadRing(buffer, base, pos, left, i);
        LaterStill(old(drivers), before, drivers);
        pos, left := pos + n, left - n;
        i := i + 1;
      }
    }

    method ReadRing(buffer: array<SensorEvent>, ghost base: nat, at: nat, left: nat, i: nat) returns (n: nat)
      requires Valid() && Holds(buffer, base, at) && at + left <= buffer.Length && i < |drivers|
      requires left > 0 && forall j :: 0 <= j < i ==> !revents[j]
      modifies this`drivers, this`revents, this`log, buffer
      ensures Valid() && Later(old(drivers), drivers) && n <= left && Holds(buffer, base, at + n) && old(log) <= log
      ensures i < |drivers| == |revents| && (n < left ==> drivers[i].ring == [] && !revents[i])
      ensures drivers == old(drivers)[i := drivers[i]] && revents == old(revents)[i := revents[i]]
    {
      n := 0;
      LaterByOne(drivers, i, drivers[i]);
      if revents[i] {
        n := ReadReady(buffer, base, at, left, i);
      }
    }

    /** One driver's turn, when POLLIN is recorded for it. */
    method ReadReady(buffer: array<SensorEvent>, ghost base: nat, at: nat, left: nat, i: nat) returns (n: nat)
      requires Valid() && Holds(buffer, base, at) && at + left <= buffer.Length && i < |drivers|
      requires left > 0 && revents[i] && forall j :: 0 <= j < i ==> !revents[j]
      modifies this`drivers, this`revents, this`log, buffer
      ensures Valid() && Later(old(drivers), drivers) && n <= left && Holds(buffer, base, at + n) && old(log) <= log
      ensures i < |drivers| == |revents| && (n < left ==> drivers[i].ring == [] && !revents[i])
      ensures drivers == old(drivers)[i := drivers[i]] && revents == old(revents)[i := revents[i]]
    {
      var data := ReadDriver(i, left);
      assert Later(old(drivers), drivers) by {
        TurnIsLater(old(drivers)[i], drivers[i], left, data);
        LaterByOne(old(drivers), i, drivers[i]);
      }
      assert Tracked(drivers, log + Tagged(i, data)) by {
        TrackTurn(old(drivers), log, i, drivers[i], data);
      }
      assert Leftover(drivers, revents[i := |data| == left]) by {
        LeftoverKept(old(drivers), revents, i, drivers[i], |data| == left);
      }
      assert revents[i := true] == revents;
      if |data| < left {
        revents := revents[i := false];
      }
      Append(buffer, base, at, i, data);
      n := |data|;
    }

    /** Other threads' flushes, each counted, flagged and signalled. */
    method FlushAll(handles: seq<int>)
      requires batch.Valid() && batch.Signalled() && forall i :: 0 <= i < |handles| ==> 0 <= handles[i] < MAX_HANDLE
      requires pipe <= PIPE_SIZE
      modifies this`pipe, batch, batch.flushSensorReq
      ensures batch.Valid() && batch.Signalled() && pipe == Least(old(pipe) + |handles|, PIPE_SIZE)
      ensures batch.accepted == old(batch.accepted) + multiset(handles) && batch.delivered == old(batch.delivered)
    {
      if handles != [] {
        ghost var accepted := batch.accepted;
        var _ := batch.Flush(handles[0]);
        WriteByte();
        FlushAll(handles[1..]);
        OneByOne(accepted, handles);
      }
    }

    /** poll() itself. Its precondition is that no ring holds unread events: it overwrites every recorded POLLIN. */
    method Wait(r: Reply) returns (ready: bool)
      requires Valid() && AllEmpty(drivers)
      requires r.Wakes? && Fits(r, |drivers|)
      modifies this`drivers, this`revents, this`pipe, batch, batch.flushSensorReq
      ensures Valid() && AllEmpty(drivers) && Later(old(drivers), drivers)
      ensures drivers == Arrive(old(drivers), r.arrivals) && revents == Recorded(drivers)
      ensures pipe == Least(old(pipe) + |r.flushes|, PIPE_SIZE)
      ensures ready <==> pipe > 0 || !AllDrained(drivers)
      ensures batch.accepted == old(batch.accepted) + multiset(r.flushes) && batch.delivered == old(batch.delivered)
    {
      ArriveKeeps(drivers, r.arrivals, log);
      drivers := Arrive(drivers, r.arrivals);
      revents := Recorded(drivers);
      FlushAll(r.flushes);
      ready := pipe > 0 || exists i :: 0 <= i < |revents| && revents[i];
    }

    method TakeByte()
      modifies this`pipe
      ensures pipe == if old(pipe) > 0 then old(pipe) - 1 else 0
    {
      if pipe > 0 {
        pipe := pipe - 1;
      }
    }

    /** One reply. It is ready exactly when something was ready before or the reply brings something; and a byte is taken off
        the pipe if there is one. */
    method Answer(r: Reply) returns (ready: bool)
      requires Valid() && AllEmpty(drivers) && r.Wakes? && Fits(r, |drivers|)
      modifies this`drivers, this`revents, this`pipe, batch, batch.flushSensorReq
      ensures Valid() && AllEmpty(drivers) && batch.delivered == old(batch.delivered)
      ensures Now() == After(old(Now()), r)
      ensures pipe == if old(pipe) + |r.flushes| == 0 then 0 else Least(old(pipe) + |r.flushes|, 65536) - 1
      ensures ready <==> old(Hot()) || !Quiet(r)
      ensures !ready ==> Now() == old(Now()) && NoneRecorded(revents)
    {
      ghost var before := Now();
      ready := Wait(r);
      assert (ready <==> IsHot(before) || !Quiet(r)) && (!ready ==> After(before, r) == before && NoneRecorded(revents)) by {
        ReadyExactly(before, r);
      }
      TakeByte();
    }

    /** One call of poll(): it ends as `Ends` says, and leaves everything as it was unless a reply ended it. */
    method PollOnce(replies: seq<Reply>, from: nat, mayWait: bool) returns (k: nat, status: Status)
      requires Valid() && AllEmpty(drivers) && NoneRecorded(revents) && from <= |replies|
      requires forall i :: 0 <= i < |replies| ==> Fits(replies[i], |drivers|)
      modifies this`drivers, this`revents, this`pipe, batch, batch.flushSensorReq
      ensures Valid() && AllEmpty(drivers) && batch.delivered == old(batch.delivered)
      ensures (k, status) == End(replies, from, mayWait, old(Hot()))
      ensures Now() == Left(old(Now()), replies, k, status)
      ensures status.Stuck? || status.Broken? ==> NoneRecorded(revents)
      decreases |replies| - from
    {
      if from == |replies| {
        return from, Stuck;
      }
      var r := replies[from];
      if r.Fails? {
        return from, Broken(r.errno);
      }
      var ready := Answer(r);
      if ready {
        return from + 1, Ready;
      } else if !mayWait {
        return from + 1, Idle;
      }
      k, status := PollOnce(replies, from + 1, mayWait);
    }

    /** pollEvents, run against any finite list of replies. Whatever the drivers do within their discipline: the events
        returned fill the buffer from the front, each published once; the flushes owed at the call come first, as
        the handles their callers used; a normal return is never empty-handed; and no event is stranded, because `Wait`
        is only reached with every ring empty and `Leftover` holds on return. Over any run of calls, what was got from
        a driver is its decoder's output over what was read from the kernel (`Tracked`), which loses nothing (`Later`).
        `trace` is the calls of poll() made: each ends the one way it can, and the result follows from the last. A call
        left waiting, or failing, has read what was recorded and answered every flush; one that returns with budget left
        has found nothing ready. */
    method PollEvents(buffer: array<SensorEvent>, count: nat, replies: seq<Reply>, clock: nat -> int)
      returns (res: Result, ghost trace: seq<Poll>, ghost used: nat)
      requires Valid() && count <= buffer.Length
      requires forall i :: 0 <= i < |replies| ==> Fits(replies[i], |drivers|)
      modifies this`drivers, this`revents, this`pipe, this`log, batch, batch.flushSensorReq, buffer
      ensures Valid() && Later(old(drivers), drivers)
      ensures res.Returned? ==> Holds(buffer, |old(log)|, res.n) && res.n <= count && (count >= 1 ==> res.n >= 1)
      ensures res.Returned? ==> var owed := old(Owed(batch.Requests()));
                Answered(owed, count) <= res.n
                && forall i :: 0 <= i < Answered(owed, count) ==>
                    buffer[i] == FlushComplete(owed[i] + 1, clock(i))
      ensures Chain(replies, trace, used) && Concludes(trace, res, count)
      ensures !res.Returned? ==> Rested() && trace[|trace| - 1].inHand == (|log| > |old(log)|)
      ensures res.Returned? && res.n < count ==> AllEmpty(drivers) && !Hot()
    {
      ghost var owed := Owed(batch.Requests());
      ghost var first := owed[..Answered(owed, count)];
      res, trace, used := PollLoop(buffer, count, replies, clock);
      assert res.Returned? ==> forall i :: 0 <= i < |first| ==> buffer[i] == Publish(log[|old(log)| + i].event);
    }

    /** Every ring is empty, no POLLIN is recorded, and no flush is owed. */
    ghost predicate Rested()
      reads this, batch, batch.flushSensorReq
    {
      AllEmpty(drivers) && NoneRecorded(revents) && Owed(batch.Requests()) == []
    }

    /** The do-while loop. */
    method PollLoop(buffer: array<SensorEvent>, count: nat, replies: seq<Reply>, clock: nat -> int)
      returns (res: Result, ghost trace: seq<Poll>, ghost used: nat)
      requires Valid() && count <= buffer.Length
      requires forall i :: 0 <= i < |replies| ==> Fits(replies[i], |drivers|)
      modifies this`drivers, this`revents, this`pipe, this`log, batch, batch.flushSensorReq, buffer
      ensures Valid() && Later(old(drivers), drivers)
      ensures res.Returned? ==> Holds(buffer, |old(log)|, res.n) && res.n <= count && (count >= 1 ==> res.n >= 1)
      ensures var owed := old(Owed(batch.Requests())); Leads(log, |old(log)|, owed[..Answered(owed, count)], clock)
      ensures Chain(replies, trace, used) && Concludes(trace, res, count)
      ensures !res.Returned? ==> Rested() && trace[|trace| - 1].inHand == (|log| > |old(log)|)
      ensures res.Returned? && res.n < count ==> AllEmpty(drivers) && !Hot()
    {
      ghost var base, owed := |log|, Owed(batch.Requests());
      ghost var first := owed[..Answered(owed, count)];
      var pos, left := ReadAll(buffer, base, 0, count, clock);
      ghost var start := log;
      var k := 0;
      trace := [];
      while left != 0
        invariant Valid() && Holds(buffer, base, pos) && pos + left == count && k <= |replies|
        invariant start <= log && Later(old(drivers), drivers)
        invariant left > 0 ==> Rested()
        invariant Chain(replies, trace, k) && AllReady(trace)
        decreases |replies| - k
      {
        ghost var before := drivers;
        var status;
        ghost var p;
        pos, left, status, p := Round(buffer, base, pos, left, replies, k, clock);
        LaterStill(old(drivers), before, drivers);
        ChainOne(replies, trace, p);
        assert (trace + [p])[..|trace|] == trace;
        k, trace := status.1, trace + [p];
        if status.0.Stuck? {
          return Waiting, trace, k;
        } else if status.0.Broken? {
          return PollFailed(status.0.errno), trace, k;
        } else if status.0.Idle? {
          break;
        }
      }
      return Returned(pos), trace, k;
    }

    /** One round of it: a call of poll(), and a read of the drivers if that found something ready. */
    method Round(buffer: array<SensorEvent>, ghost base: nat, at: nat, budget: nat, replies: seq<Reply>, from: nat,
        clock: nat -> int)
      returns (pos: nat, left: nat, status: (Status, nat), ghost p: Poll)
      requires Valid() && Rested() && Holds(buffer, base, at) && at + budget <= buffer.Length && budget > 0
      requires from <= |replies| && forall i :: 0 <= i < |replies| ==> Fits(replies[i], |drivers|)
      modifies this`drivers, this`revents, this`pipe, this`log, batch, batch.flushSensorReq, buffer
      ensures Valid() && Later(old(drivers), drivers) && Holds(buffer, base, pos) && pos + left == at + budget
      ensures p == Poll(from, status.1, at > 0, p.hot, status.0) && Ends(replies, from, at == 0, p.hot, p.upTo, p.status)
      ensures old(log) <= log && (!status.0.Ready? ==> log == old(log) && pos == at)
      ensures if status.0.Ready? then left > 0 ==> Rested()
              else if status.0.Idle? then AllEmpty(drivers) && !Hot()
              else Rested()
    {
      ghost var before, hot := Now(), Hot();
      NothingOwed(batch);
      LaterByNothing(drivers);
      pos, left := at, budget;
      var k, s := PollOnce(replies, from, at == 0);
      EndsThere(replies, from, at == 0, hot);
      status, p := (s, k), Poll(from, k, at > 0, hot, s);
      if s.Ready? {
        LaterByArrivals(before.drivers, drivers, replies[k - 1].arrivals);
        ghost var waited := drivers;
        pos, left := ReadAll(buffer, base, at, budget, clock);
        LaterStill(before.drivers, waited, drivers);
      } else if s.Idle? {
        NothingArrived(before, replies[k - 1]);
      } else {
        NothingOwed(batch);
      }
    }
  }
}
