/** The batch driver over a kernel device: records come from a FIFO by ioctl, flush completions from an input device. */
module BatchDevice {
  import opened InputEvents
  import opened Stream

  const MAX_BATCH_DATA_PER_QUERY := 18
  const NUM_SENSORS := 43
  const RING_SIZE := 128
  const END_FLAG := REL_RY

  /** A FIFO record: its sensor type and its time. */
  datatype Record = Record(kind: int, time: int)

  datatype Out = Data(sensor: int, record: Record) | Done(handle: int)

  /** The sensor types the driver knows; each has the handle one below its number. */
  function TypeToSensor(kind: int): (sensor: int)
    ensures -1 <= sensor < NUM_SENSORS
  {
    if 1 <= kind <= 12 || 14 <= kind <= 25 || 35 <= kind <= 37 || 41 <= kind <= 43 then kind - 1 else -1
  }

  /** The Android sensor types in question, one by one. */
  const KNOWN := {1, 2, 3, 4, 5, 6, 7, 8, 9, 10, 11, 12, 14, 15, 16, 17, 18, 19, 20, 21, 22, 23, 24, 25, 35, 36, 37, 41, 42, 43}

  /** The table by name: exactly the known types have a handle, one below the type, and no two share one. */
  lemma {:induction false} TypeTable(kind: int, other: int)
    ensures TypeToSensor(kind) == if kind in KNOWN then kind - 1 else -1
    ensures TypeToSensor(kind) == TypeToSensor(other) >= 0 ==> kind == other
  {
  }

  type Windows = w: seq<int> | |w| == NUM_SENSORS witness seq(NUM_SENSORS, i => 0)

  /** What becomes of one record: emitted, or filtered because its type is unknown or it is no newer than its window. */
  function Emit(w: Windows): Record -> seq<Out> {
    (r: Record) =>
      var s := TypeToSensor(r.kind);
      if s < 0 || r.time <= w[s] then [] else [Data(s, r)]
  }

  /** An input event with the number of records the kernel had queued before it. */
  datatype Marked = Marked(event: InputEvent, mark: nat)

  ghost predicate AllMarked(ms: seq<Marked>, total: nat) {
    forall i :: 0 <= i < |ms| ==> ms[i].mark <= total
  }

  predicate IsEnd(e: InputEvent) { (e.kind == EV_ABS || e.kind == EV_REL) && e.code == END_FLAG }

  function Complete(): Marked -> seq<Out> {
    (m: Marked) => if IsEnd(m.event) then [Done(m.event.value % 0x1_0000)] else []
  }

  /** What the kernel does next: queue a record, or post an input event. */
  datatype Posting = Queue(record: Record) | Signal(event: InputEvent)

  // ---- What a run of postings leaves behind ----

  /** The number of records queued so far goes up with every record, and marks every input event. */
  function Mark(): (nat, Posting) -> Outcome<nat, Marked> {
    (total: nat, p: Posting) =>
      match p
      case Queue(_) => Outcome(total + 1, [])
      case Signal(e) => Outcome(total, [Marked(e, total)])
  }

  /** After the postings: how many records were queued, and the input events posted, each with its mark. */
  function Marks(total: nat, ps: seq<Posting>): Outcome<nat, Marked> {
    Run(Mark(), total, ps)
  }

  function Queues(ps: seq<Posting>): nat {
    if ps == [] then 0 else Queues(ps[..|ps| - 1]) + (if ps[|ps| - 1].Queue? then 1 else 0)
  }

  function SignalsIn(ps: seq<Posting>): nat {
    if ps == [] then 0 else SignalsIn(ps[..|ps| - 1]) + (if ps[|ps| - 1].Signal? then 1 else 0)
  }

  lemma {:induction false} SignalsOne(ps: seq<Posting>, p: Posting)
    ensures SignalsIn(ps + [p]) == SignalsIn(ps) + if p.Signal? then 1 else 0
  {
    assert (ps + [p])[..|ps|] == ps;
  }

  lemma {:induction false} MarksCount(total: nat, ps: seq<Posting>)
    ensures Marks(total, ps).state == total + Queues(ps) && |Marks(total, ps).out| == SignalsIn(ps)
  {
    if ps != [] {
      MarksCount(total, ps[..|ps| - 1]);
    }
  }

  lemma {:induction false} MoreMarked(ms: seq<Marked>, total: nat, p: Posting)
    requires AllMarked(ms, total)
    ensures AllMarked(ms + Mark()(total, p).out, Mark()(total, p).state)
  {
  }

  /** Where the j-th input event stands among the postings. */
  function NthSignal(ps: seq<Posting>, j: nat): (r: nat)
    requires j < SignalsIn(ps)
    ensures r < |ps| && ps[r].Signal? && SignalsIn(ps[..r]) == j
  {
    var init := ps[..|ps| - 1];
    if j < SignalsIn(init) then
      var r := NthSignal(init, j);
      assert init[..r] == ps[..r];
      r
    else |ps| - 1
  }

  /** A record is queued before the j-th input event. */
  ghost predicate QueueBefore(ps: seq<Posting>, j: nat)
    requires j < SignalsIn(ps)
  {
    exists q :: 0 <= q < NthSignal(ps, j) && ps[q].Queue?
  }

  lemma {:induction false} SomeQueue(ps: seq<Posting>)
    ensures Queues(ps) > 0 <==> exists q :: 0 <= q < |ps| && ps[q].Queue?
  {
    if ps != [] {
      var n := |ps| - 1;
      SomeQueue(ps[..n]);
      assert forall q :: 0 <= q < n ==> ps[..n][q] == ps[q];
    }
  }

  lemma {:induction false} MarkOfNth(total: nat, ps: seq<Posting>, j: nat)
    requires j < SignalsIn(ps)
    ensures j < |Marks(total, ps).out| && Marks(total, ps).out[j].mark == total + Queues(ps[..NthSignal(ps, j)])
  {
    var init := ps[..|ps| - 1];
    MarksCount(total, init);
    if j < SignalsIn(init) {
      MarkOfNth(total, init, j);
      assert init[..NthSignal(init, j)] == ps[..NthSignal(ps, j)];
    }
  }

  /** An input event is marked past the records known at the start exactly when one is queued before it. */
  lemma {:induction false} MarkedPast(total: nat, ps: seq<Posting>, j: nat)
    requires j < SignalsIn(ps)
    ensures j < |Marks(total, ps).out| && (Marks(total, ps).out[j].mark > total <==> QueueBefore(ps, j))
  {
    var p := NthSignal(ps, j);
    MarkOfNth(total, ps, j);
    SomeQueue(ps[..p]);
    assert forall q :: 0 <= q < p ==> ps[..p][q] == ps[q];
  }

  /** Of the input events `taken` since position `from`, exactly those overtake a record (one queued before it is still
      unfetched) that were posted late, after the first `seen` ones, with a record queued late before them. */
  ghost predicate OvertakeExactly(taken: seq<Marked>, from: nat, fetched: nat, seen: nat, late: seq<Posting>) {
    |taken| <= seen + SignalsIn(late)
    && forall i :: from <= i < |taken| ==> (taken[i].mark > fetched <==> i >= seen && QueueBefore(late, i - seen))
  }

  lemma {:induction false} LateOvertakes(known: seq<Marked>, n: nat, late: seq<Posting>, taken: seq<Marked>, from: nat)
    requires AllMarked(known, n) && taken <= known + Marks(n, late).out
    ensures OvertakeExactly(taken, from, n, |known|, late)
  {
    MarksCount(n, late);
    forall i | from <= i < |taken| ensures taken[i].mark > n <==> i >= |known| && QueueBefore(late, i - |known|) {
      assert taken[i] == (known + Marks(n, late).out)[i];
      if i >= |known| {
        MarkedPast(n, late, i - |known|);
      }
    }
  }

  lemma {:induction false} NoneTaken(taken: seq<Marked>, fetched: nat, seen: nat)
    requires |taken| <= seen
    ensures OvertakeExactly(taken, |taken|, fetched, seen, [])
  {
  }

  /** How one call finds the kernel: per query, how much is posted before it, how much it takes and whether it fails;
      then how much is posted between the last query and the read of the input device, how much that read takes, and
      the error number it fails with (a torn read counts as EINVAL), or 0. */
  datatype Schedule = Schedule(
    posts: nat -> nat, takes: nat -> nat, fails: nat -> bool, late: nat, read: nat, failure: nat)

  function Min(a: nat, b: nat): nat { if a < b then a else b }

  /** A driver returns at most what was asked, and at least one record when it has one. */
  function Taken(wish: nat, ask: nat, queued: nat): (k: nat)
    requires ask > 0
    ensures k <= ask && k <= queued && (queued > 0 ==> k > 0)
  {
    if queued == 0 then 0 else if wish == 0 then 1 else Min(wish, Min(ask, queued))
  }

  class BatchSensor {
    const window: Windows

    // The kernel: what it will post, its FIFO, its input queue; and the driver's ring.
    var future: seq<Posting>
    var fifo: seq<Record>
    var input: seq<Marked>
    var ring: seq<Marked>

    var total: nat              // records queued so far

    // Records fetched and input events consumed so far, and what was delivered for them.
    ghost var fetched: seq<Record>
    ghost var consumed: seq<Marked>
    ghost var data: seq<Out>
    ghost var completions: seq<Out>

    /** All input events posted so far, in order. */
    ghost function Signals(): seq<Marked>
      reads this
    {
      consumed + (ring + input)
    }

    /** Over every run: the data delivered is the in-order filter of the records fetched so far, none of them cut off, the
        FIFO holds the rest, and the completions delivered are those of the input events consumed so far. */
    ghost predicate Valid()
      reads this
    {
      && data == Gather(Emit(window), fetched) && total == |fetched| + |fifo|
      && completions == Gather(Complete(), consumed)
      && |ring| <= RING_SIZE
      && AllMarked(Signals(), total)
    }

    constructor (window: Windows, future: seq<Posting>)
      ensures Valid() && this.window == window && this.future == future
      ensures fetched == fifo == [] && Signals() == [] && data == [] && completions == []
    {
      this.window, this.future := window, future;
      fifo, input, ring, total := [], [], [], 0;
      fetched, consumed, data, completions := [], [], [], [];
    }

    /** One record: emitted, or dropped for its type or its time. */
    method ConvertOne(r: Record) returns (out: seq<Out>)
      ensures out == Emit(window)(r) && |out| <= 1
    {
      out := [];
      var s := TypeToSensor(r.kind);
      if s >= 0 {
        if r.time > window[s] {
          out := [Data(s, r)];
        }
      }
    }

    /** How the postings `ps` changed what the kernel holds, since it held `signals` and had queued `queued` records. */
    ghost predicate Posted(before: seq<Posting>, ps: seq<Posting>, signals: seq<Marked>, queued: nat)
      reads this
    {
      before == ps + future && Marks(queued, ps).state == total && Signals() == signals + Marks(queued, ps).out
    }

    /** Postings made one after the other. */
    lemma {:induction false} PostedOn(before: seq<Posting>, a: seq<Posting>, mid: seq<Posting>, b: seq<Posting>,
        signals: seq<Marked>, known: seq<Marked>, queued: nat, m: nat)
      requires before == a + mid && known == signals + Marks(queued, a).out && m == Marks(queued, a).state
      requires Posted(mid, b, known, m)
      ensures Posted(before, a + b, signals, queued)
    {
      RunConcat(Mark(), queued, a, b);
      Associate(a, b, future);
      Associate(signals, Marks(queued, a).out, Marks(m, b).out);
    }

    method PostOne()
      requires Valid() && future != []
      modifies this`future, this`fifo, this`input, this`total
      ensures Valid() && |fifo| + |future| <= old(|fifo| + |future|) && old(fifo) <= fifo
      ensures Posted(old(future), [old(future)[0]], old(Signals()), old(total))
    {
      RunSingle(Mark(), total, future[0]);
      match future[0] {
        case Queue(r) => QueueOne(r);
        case Signal(e) => SignalOne(e);
      }
      future := future[1..];
    }

    method QueueOne(r: Record)
      requires Valid()
      modifies this`fifo, this`total
      ensures Valid() && fifo == old(fifo) + [r] && total == old(total) + 1 && Signals() == old(Signals()) + []
    {
      fifo, total := fifo + [r], total + 1;
    }

    method SignalOne(e: InputEvent)
      requires Valid()
      modifies this`input
      ensures Valid() && Signals() == old(Signals()) + [Marked(e, total)]
    {
      MoreMarked(Signals(), total, Signal(e));
      Associate(ring, input, [Marked(e, total)]);
      Associate(consumed, ring + input, [Marked(e, total)]);
      input := input + [Marked(e, total)];
    }

    /** The kernel posts the next `n` things it has to post. */
    method Post(n: nat) returns (ghost ps: seq<Posting>)
      requires Valid()
      modifies this`future, this`fifo, this`input, this`total
      ensures Valid() && |fifo| + |future| <= old(|fifo| + |future|) && old(fifo) <= fifo
      ensures Posted(old(future), ps, old(Signals()), old(total)) && |ps| == Min(n, |old(future)|)
    {
      var k := 0;
      ps := [];
      while k < n && future != []
        invariant Valid() && |fifo| + |future| <= old(|fifo| + |future|) && old(fifo) <= fifo
        invariant Posted(old(future), ps, old(Signals()), old(total)) && |ps| == k <= n
        decreases n - k
      {
        ghost var mid, known, m := future, Signals(), total;
        PostOne();
        PostedOn(old(future), ps, mid, [mid[0]], old(Signals()), known, old(total), m);
        ps := ps + [mid[0]];
        k := k + 1;
      }
    }

    /** The ioctl: hands over the front of the FIFO and reports how much is left. */
    method Query(ask: nat, wish: nat) returns (records: seq<Record>, left: nat)
      requires Valid() && ask > 0
      modifies this`fifo, this`fetched, this`data
      ensures Valid() && |records| <= ask && left == |fifo| && records + fifo == old(fifo)
      ensures old(fifo) != [] ==> records != []
      ensures fetched == old(fetched) + records && data == old(data) + Gather(Emit(window), records)
      ensures fetched + fifo == old(fetched + fifo)
    {
      var k := Taken(wish, ask, |fifo|);
      records := fifo[..k];
      GatherConcat(Emit(window), fetched, records);
      assert records + fifo[k..] == fifo;
      data := data + Gather(Emit(window), records);
      Associate(fetched, records, fifo[k..]);
      fifo, fetched := fifo[k..], fetched + records;
      left := |fifo|;
    }

    /** The loop over one reply. It can never run out of budget, so no record fetched is lost. */
    method Convert(records: seq<Record>, count: nat) returns (out: seq<Out>)
      requires |records| <= count
      ensures out == Gather(Emit(window), records) && |out| <= |records|
    {
      out := [];
      var left, i := count, 0;
      while left != 0 && i < |records|
        invariant 0 <= i <= |records| && left == count - |out| && |out| <= i
        invariant out == Gather(Emit(window), records[..i])
      {
        GatherOne(Emit(window), records[..i], records[i]);
        assert records[..i + 1] == records[..i] + [records[i]];
        var o := ConvertOne(records[i]);
        out := out + o;
        left := left - |o|;
        i := i + 1;
      }
      assert records[..|records|] == records;
    }

    /** The ioctl loop. With budget left and no failure the FIFO has just reported empty. */
    method Fetch(count: nat, sched: Schedule) returns (out: seq<Out>, clean: bool, ghost early: seq<Posting>)
      requires Valid()
      modifies this`future, this`fifo, this`input, this`total, this`fetched, this`data
      ensures Valid() && |out| <= count && data == old(data) + out
      ensures |out| < count && clean ==> fifo == []
      ensures (forall q :: !sched.fails(q)) ==> clean
      ensures old(fetched + fifo) <= fetched + fifo && Posted(old(future), early, old(Signals()), old(total))
      ensures (forall q :: sched.posts(q) == 0) ==> early == []
      ensures (forall q :: sched.fails(q)) ==> out == [] && fetched == old(fetched)
    {
      out, clean, early := [], true, [];
      var left, q, more := count, 0, true;
      while left != 0 && more
        invariant Valid() && 0 <= left == count - |out| && data == old(data) + out
        invariant !clean ==> !more && exists p :: sched.fails(p)
        invariant !more && clean ==> fifo == []
        invariant old(fetched + fifo) <= fetched + fifo && Posted(old(future), early, old(Signals()), old(total))
        invariant (forall q :: sched.posts(q) == 0) ==> early == []
        invariant (forall q :: sched.fails(q)) ==> out == [] && fetched == old(fetched)
        decreases more, |fifo| + |future|
      {
        ghost var mid, known, m := future, Signals(), total;
        var o, ok, ps := FetchOnce(left, sched, q);
        PostedOn(old(future), early, mid, ps, old(Signals()), known, old(total), m);
        Associate(old(data), out, o);
        out := out + o;
        early := early + ps;
        left := left - |o|;
        clean, more := ok, ok && fifo != [];
        q := q + 1;
      }
    }

    /** One turn of the ioctl loop. */
    method FetchOnce(left: nat, sched: Schedule, q: nat) returns (o: seq<Out>, ok: bool, ghost ps: seq<Posting>)
      requires Valid() && left > 0
      modifies this`future, this`fifo, this`input, this`total, this`fetched, this`data
      ensures Valid() && |o| <= left && data == old(data) + o && ok == !sched.fails(q)
      ensures ok && fifo != [] ==> |fifo| + |future| < old(|fifo| + |future|)
      ensures !ok ==> o == [] && fetched == old(fetched)
      ensures old(fetched + fifo) <= fetched + fifo && Posted(old(future), ps, old(Signals()), old(total))
      ensures |ps| == Min(sched.posts(q), |old(future)|)
    {
      ps := Post(sched.posts(q));
      if sched.fails(q) {
        return [], false, ps;
      }
      var records, more := Query(Min(left, MAX_BATCH_DATA_PER_QUERY), sched.takes(q));
      o := Convert(records, left);
      return o, true, ps;
    }

    method Consume() returns (out: seq<Out>)
      requires Valid() && ring != []
      modifies this`ring, this`consumed, this`completions
      ensures Valid() && |out| <= 1 && completions == old(completions) + out
      ensures consumed == old(consumed) + [old(ring)[0]] && ring == old(ring)[1..] && Signals() == old(Signals())
    {
      var m := ring[0];
      assert ring + input == [m] + (ring[1..] + input);
      Associate(consumed, [m], ring[1..] + input);
      GatherOne(Complete(), consumed, m);
      out := Complete()(m);
      completions, consumed, ring := completions + out, consumed + [m], ring[1..];
    }

    /** How many input events a read takes. */
    static function Taking(read: nat, failure: nat, ring: nat, waiting: nat): (k: nat)
      requires ring <= RING_SIZE
    {
      if failure == 0 then Min(read, Min(RING_SIZE - ring, waiting)) else 0
    }

    /** How many input events a call has taken in the end, budget permitting, when `posted` were posted. */
    static function TakenBy(sched: Schedule, consumed: nat, ring: nat, posted: nat): (n: nat)
      requires ring <= RING_SIZE
    {
      var known := consumed + ring;
      if known < posted then known + Taking(sched.read, sched.failure, ring, posted - known) else known
    }

    /** Reads the input device and answers the flush marks in it, as far as the budget goes. */
    method ReadInput(count: nat, read: nat, failure: nat) returns (out: seq<Out>)
      requires Valid() && count > 0
      modifies this`input, this`ring, this`consumed, this`completions
      ensures Valid() && |out| <= count && completions == old(completions) + out
      ensures old(consumed) <= consumed && Signals() == old(Signals())
      ensures |out| < count ==>
        ring == [] && |consumed| == |old(consumed)| + |old(ring)| + Taking(read, failure, |old(ring)|, |old(input)|)
    {
      var k := Taking(read, failure, |ring|, |input|);
      TakeIn(k);
      out := [];
      var left := count;
      while left != 0 && ring != []
        invariant Valid() && 0 <= left == count - |out| && completions == old(completions) + out
        invariant old(consumed) <= consumed && Signals() == old(Signals())
        invariant |consumed| + |ring| == |old(consumed)| + |old(ring)| + k
        decreases |ring|
      {
        var o := Consume();
        Associate(old(completions), out, o);
        out := out + o;
        left := left - |o|;
      }
    }

    method TakeIn(k: nat)
      requires Valid() && k <= |input| && |ring| + k <= RING_SIZE
      modifies this`input, this`ring
      ensures Valid() && Signals() == old(Signals()) && |ring| == |old(ring)| + k
    {
      ghost var rest := ring + input;
      ring, input := ring + input[..k], input[k..];
      assert ring + input == rest;
    }

    /** What follows the queries: postings that come late, and the read of the input device unless it fails empty-handed. If
        the FIFO was empty, an input event taken now overtakes a record (one queued before it is still unfetched) if and
        only if it was posted late with a record queued late before it. */
    method Finish(count: nat, sched: Schedule, emptyHanded: bool)
      returns (failed: bool, out: seq<Out>, ghost late: seq<Posting>)
      requires Valid() && count > 0
      modifies this`future, this`fifo, this`input, this`ring, this`total, this`consumed, this`completions
      ensures Valid() && |out| <= count && completions == old(completions) + out
      ensures old(fetched + fifo) <= fetched + fifo && old(consumed) <= consumed
      ensures Posted(old(future), late, old(Signals()), old(total)) && |late| == Min(sched.late, |old(future)|)
      ensures failed == (sched.failure != 0 && |old(ring)| < RING_SIZE && emptyHanded)
      ensures failed ==> out == [] && consumed == old(consumed)
      ensures !failed && |out| < count ==>
        |consumed| == TakenBy(sched, |old(consumed)|, |old(ring)|, |Signals()|)
      ensures old(fifo) == [] ==> OvertakeExactly(consumed, |old(consumed)|, |fetched|, |old(Signals())|, late)
    {
      ghost var known := Signals();
      late := Post(sched.late);
      out, failed := [], sched.failure != 0 && |ring| < RING_SIZE && emptyHanded;
      if !failed {
        out := ReadInput(count, sched.read, sched.failure);
      }
      if old(fifo) == [] {
        LateOvertakes(known, |fetched|, late, consumed, |old(consumed)|);
      }
    }

    /** The same seen from the start of the call. */
    method FinishCall(count: nat, sched: Schedule, emptyHanded: bool,
        ghost before: seq<Posting>, ghost early: seq<Posting>, ghost signals: seq<Marked>, ghost queued: nat)
      returns (failed: bool, out: seq<Out>, ghost late: seq<Posting>)
      requires Valid() && count > 0 && Posted(before, early, signals, queued)
      modifies this`future, this`fifo, this`input, this`ring, this`total, this`consumed, this`completions
      ensures Valid() && |out| <= count && completions == old(completions) + out
      ensures old(fetched + fifo) <= fetched + fifo && old(consumed) <= consumed
      ensures Posted(before, early + late, signals, queued) && |late| == Min(sched.late, |before| - |early|)
      ensures failed == (sched.failure != 0 && |old(ring)| < RING_SIZE && emptyHanded) && (failed ==> out == [])
      ensures !failed && |out| < count ==>
        |consumed| == TakenBy(sched, |old(consumed)|, |old(ring)|, |Signals()|)
      ensures old(fifo) == [] ==> OvertakeExactly(consumed, |old(consumed)|, |fetched|, |old(Signals())|, late)
    {
      ghost var mid, known, m := future, Signals(), total;
      failed, out, late := Finish(count, sched, emptyHanded);
      PostedOn(before, early, mid, late, signals, known, queued, m);
    }

    /** A call. Data comes first, then completions. `early` is what the kernel posted up to the last query, `late` what it
        posted between that and the read of the input device. When no query failed, an input event taken in this call
        overtakes a record (one queued before it is still unfetched) if and only if it was posted late with a record
        queued late before it. */
    method ReadEvents(count: int, sched: Schedule)
      returns (r: int, out: seq<Out>, ghost records: seq<Out>, ghost dones: seq<Out>, ghost clean: bool,
               ghost early: seq<Posting>, ghost late: seq<Posting>, ghost seen: nat)
      requires Valid()
      modifies this`future, this`fifo, this`input, this`ring, this`total
      modifies this`fetched, this`consumed, this`data, this`completions
      ensures Valid() && (if count < 1 then out == [] else |out| <= count)
      ensures r == if count < 1 then -EINVAL
                   else if sched.failure != 0 && |old(ring)| < RING_SIZE && records == [] then 0 - sched.failure else |out|
      ensures out == records + dones && data == old(data) + records && completions == old(completions) + dones
      ensures old(fetched + fifo) <= fetched + fifo && old(consumed) <= consumed
      ensures Posted(old(future), early + late, old(Signals()), old(total))
      ensures ((forall q :: !sched.fails(q)) ==> clean) && ((forall q :: sched.posts(q) == 0) ==> early == [])
      ensures seen == |old(Signals())| + SignalsIn(early)
      ensures clean ==> OvertakeExactly(consumed, |old(consumed)|, |fetched|, seen, late)
      ensures (forall q :: sched.fails(q)) ==> records == [] && fetched == old(fetched)
      ensures r >= 0 && |out| < count ==> |late| == Min(sched.late, |old(future)| - |early|)
      ensures r >= 0 && |out| < count ==> |consumed| == TakenBy(sched, |old(consumed)|, |old(ring)|, |Signals()|)
    {
      records, dones, clean, early, late := [], [], true, [], [];
      seen := |Signals()|;
      if count < 1 {
        NoneTaken(consumed, |fetched|, seen);
        return -EINVAL, [], records, dones, clean, early, late, seen;
      }
      var ok;
      out, ok, early := Fetch(count, sched);
      records, clean, seen := out, ok, |Signals()|;
      MarksCount(old(total), early);
      if |out| == count {
        NoneTaken(consumed, |fetched|, seen);
        assert early + [] == early;
        return |out|, out, records, dones, clean, early, late, seen;
      }
      var failed, more;
      failed, more, late :=
        FinishCall(count - |out|, sched, out == [], old(future), early, old(Signals()), old(total));
      dones, out := more, out + more;
      return if failed then 0 - sched.failure else |out|, out, records, dones, clean, early, late, seen;
    }
  }

  // ---- What comes out, said without the stages ----

  /** Over any run: the data delivered are the fetched records, in the order they were fetched and as often, exactly those of
      a known type that are newer than their sensor's window, each under the handle one below its type. */
  lemma {:induction false} DataIsExactly(b: BatchSensor) returns (idx: seq<nat>)
    requires b.Valid()
    ensures |idx| == |b.data| && Ascending(idx)
    ensures forall k :: 0 <= k < |idx| ==>
      idx[k] < |b.fetched| && b.data[k] == Data(b.fetched[idx[k]].kind - 1, b.fetched[idx[k]])
    ensures forall p :: 0 <= p < |b.fetched| ==>
      var r := b.fetched[p];
      p in idx <==> r.kind in KNOWN && r.time > b.window[r.kind - 1]
  {
    idx := GatherPicks(Emit(b.window), b.fetched);
    forall p | 0 <= p < |b.fetched|
      ensures p in idx <==> b.fetched[p].kind in KNOWN && b.fetched[p].time > b.window[b.fetched[p].kind - 1]
    {
      TypeTable(b.fetched[p].kind, 0);
      if p in idx {
        var k :| 0 <= k < |idx| && idx[k] == p;
        assert Emit(b.window)(b.fetched[idx[k]]) == [b.data[k]];
      }
    }
    forall k | 0 <= k < |idx| ensures b.data[k] == Data(b.fetched[idx[k]].kind - 1, b.fetched[idx[k]]) {
      TypeTable(b.fetched[idx[k]].kind, 0);
      assert Emit(b.window)(b.fetched[idx[k]]) == [b.data[k]];
    }
  }

  /** And the completions are those of the input events consumed, in order, exactly the ABS and REL events with code 4, each
      for the handle in the low 16 bits of its value. */
  lemma {:induction false} CompletionsAreExactly(b: BatchSensor) returns (idx: seq<nat>)
    requires b.Valid()
    ensures |idx| == |b.completions| && Ascending(idx)
    ensures forall k :: 0 <= k < |idx| ==>
      idx[k] < |b.consumed| && b.completions[k] == Done(b.consumed[idx[k]].event.value % 65536)
    ensures forall p :: 0 <= p < |b.consumed| ==>
      var e := b.consumed[p].event;
      p in idx <==> (e.kind == EV_ABS || e.kind == EV_REL) && e.code == 4
  {
    idx := GatherPicks(Complete(), b.consumed);
    forall p | 0 <= p < |b.consumed|
      ensures p in idx <==> IsEnd(b.consumed[p].event)
    {
      if p in idx {
        var k :| 0 <= k < |idx| && idx[k] == p;
        assert Complete()(b.consumed[idx[k]]) == [b.completions[k]];
      }
    }
    forall k | 0 <= k < |idx| ensures b.completions[k] == Done(b.consumed[idx[k]].event.value % 65536) {
      assert Complete()(b.consumed[idx[k]]) == [b.completions[k]];
    }
  }

  /** Postings of one record and then one END_FLAG. */
  lemma {:induction false} RecordThenEnd(r: Record, e: InputEvent)
    requires IsEnd(e)
    ensures var ps := [Queue(r), Signal(e)];
            Marks(0, ps) == Outcome(1, [Marked(e, 1)]) && SignalsIn(ps) == 1 && QueueBefore(ps, 0)
    ensures Gather(Complete(), [Marked(e, 1)]) == [Done(e.value % 0x1_0000)]
  {
    var ps := [Queue(r), Signal(e)];
    assert ps == [Queue(r)] + [Signal(e)] && ps[..1] == [Queue(r)] && ps[..1][..0] == [];
    RunSingle(Mark(), 0, Queue(r));
    RunOne(Mark(), 0, [Queue(r)], Signal(e));
    SignalsOne([], Queue(r));
    SignalsOne([Queue(r)], Signal(e));
    assert [] + [Queue(r)] == [Queue(r)];
    var at := NthSignal(ps, 0);
    assert ps[0].Queue? && ps[at].Signal?;
    GatherOne(Complete(), [], Marked(e, 1));
    assert [] + [Marked(e, 1)] == [Marked(e, 1)];
  }

  ghost function EndOf(handle: nat): InputEvent { InputEvent(EV_REL, END_FLAG, handle) }

  /** One call on a new driver, whose kernel posts a record and an END_FLAG some time during it. */
  method OneCall(r: Record, handle: nat, sched: Schedule)
    returns (b: BatchSensor, ghost clean: bool, ghost early: seq<Posting>, ghost late: seq<Posting>, ghost seen: nat)
    requires handle < 0x1_0000 && sched.late >= 2 && sched.read >= 1 && sched.failure == 0
    ensures fresh(b) && b.Valid() && b.completions == [Done(handle)] && b.consumed == [Marked(EndOf(handle), 1)]
    ensures early + late == [Queue(r), Signal(EndOf(handle))]
    ensures seen == SignalsIn(early) && (clean ==> OvertakeExactly(b.consumed, 0, |b.fetched|, seen, late))
    ensures ((forall q :: !sched.fails(q)) ==> clean) && ((forall q :: sched.posts(q) == 0) ==> early == [])
    ensures (forall q :: sched.fails(q)) ==> b.fetched == []
  {
    b := new BatchSensor(seq(NUM_SENSORS, i => 0), [Queue(r), Signal(InputEvent(EV_REL, END_FLAG, handle))]);
    var n, out;
    ghost var records, dones;
    n, out, records, dones, clean, early, late, seen := b.ReadEvents(3, sched);
    NeverFull(b, early + late);
    assert early + late == [Queue(r), Signal(EndOf(handle))];
    AllTaken(b, r, handle, sched);
  }

  lemma {:induction false} AllTaken(b: BatchSensor, r: Record, handle: nat, sched: Schedule)
    requires handle < 0x1_0000 && sched.read >= 1 && sched.failure == 0
    requires b.Valid() && b.Signals() == Marks(0, [Queue(r), Signal(EndOf(handle))]).out
    requires |b.consumed| == BatchSensor.TakenBy(sched, 0, 0, |b.Signals()|)
    ensures b.consumed == [Marked(EndOf(handle), 1)] && b.completions == [Done(handle)]
  {
    RecordThenEnd(r, EndOf(handle));
    assert b.consumed == b.Signals()[..1];
  }

  lemma {:induction false} KindsAddUp(ps: seq<Posting>)
    ensures Queues(ps) + SignalsIn(ps) == |ps|
  {
    if ps != [] {
      KindsAddUp(ps[..|ps| - 1]);
    }
  }

  /** A driver never put out more than the kernel posted. */
  lemma {:induction false} NeverFull(b: BatchSensor, ps: seq<Posting>)
    requires b.Valid() && b.total == Marks(0, ps).state && b.Signals() == Marks(0, ps).out
    ensures |b.data| + |b.completions| <= |ps|
  {
    MarksCount(0, ps);
    KindsAddUp(ps);
    GatherShort(Emit(b.window), b.fetched);
    GatherShort(Complete(), b.consumed);
  }

  /** Overtaken without any failure: the record and its END_FLAG arrive between the last query and the read of the input
      device, and the completion goes out with the record still unfetched. */
  method LateRecordIsOvertaken(r: Record, handle: nat) returns (b: BatchSensor)
    requires handle < 0x1_0000
    ensures fresh(b) && b.Valid() && b.completions == [Done(handle)] && b.consumed[0].mark > |b.fetched|
  {
    ghost var clean, early, late, seen;
    b, clean, early, late, seen := OneCall(r, handle, Schedule(q => 0, q => 0, q => false, 2, 1, 0));
    RecordThenEnd(r, EndOf(handle));
    assert late == [Queue(r), Signal(EndOf(handle))];
  }

  /** Overtaken after a failed query: the loop breaks off, and completions are read all the same. */
  method FailedQueryIsOvertaken(r: Record, handle: nat) returns (b: BatchSensor)
    requires handle < 0x1_0000
    ensures fresh(b) && b.Valid() && b.completions == [Done(handle)] && b.consumed[0].mark > |b.fetched|
  {
    ghost var clean, early, late, seen;
    b, clean, early, late, seen := OneCall(r, handle, Schedule(q => 2, q => 0, q => true, 2, 1, 0));
  }
}
