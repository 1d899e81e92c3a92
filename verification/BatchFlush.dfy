/** The batch driver without a kernel device: flush requests are counted per handle and answered from user space. */
module BatchFlush {
  import opened InputEvents
  import opened Stream

  const MAX_HANDLE := 45

  /** The completions owed: every handle as often as its counter says, lowest handle first. */
  function Owed(req: seq<nat>): (hs: seq<int>) {
    OwedFrom(req, 0)
  }

  function OwedFrom(req: seq<nat>, h: nat): (hs: seq<int>)
    requires h <= |req|
    decreases |req| - h
  {
    if h == |req| then [] else Times(h, req[h]) + OwedFrom(req, h + 1)
  }

  function Times(h: int, n: nat): (hs: seq<int>)
    ensures |hs| == n && forall i :: 0 <= i < n ==> hs[i] == h
  {
    seq(n, i => h)
  }

  /** No handle comes before a lower one. */
  lemma {:induction false} OwedInOrder(req: seq<nat>, from: nat, i: nat, j: nat)
    requires from <= |req| && i <= j < |OwedFrom(req, from)|
    ensures from <= OwedFrom(req, from)[i] <= OwedFrom(req, from)[j] < |req|
    decreases |req| - from
  {
    var n := req[from];
    if i >= n {
      OwedInOrder(req, from + 1, i - n, j - n);
    } else if j >= n {
      OwedInOrder(req, from + 1, 0, j - n);
    }
  }

  /** Handles whose counters are zero owe nothing. */
  lemma {:induction false} SkipZeros(req: seq<nat>, lo: nat, hi: nat)
    requires lo <= hi <= |req| && forall i :: lo <= i < hi ==> req[i] == 0
    ensures OwedFrom(req, lo) == OwedFrom(req, hi)
    decreases hi - lo
  {
    if lo < hi {
      SkipZeros(req, lo + 1, hi);
    }
  }

  /** What is owed from `h` on depends on the counters from `h` on only. */
  lemma {:induction false} OwedSuffix(a: seq<nat>, b: seq<nat>, h: nat)
    requires h <= |a| == |b| && forall i :: h <= i < |a| ==> a[i] == b[i]
    ensures OwedFrom(a, h) == OwedFrom(b, h)
    decreases |a| - h
  {
    if h < |a| {
      OwedSuffix(a, b, h + 1);
    }
  }

  /** Answering `n` requests of the lowest non-zero handle takes them off the front of what is owed. */
  lemma {:induction false} Answer(req: seq<nat>, h: nat, n: nat)
    requires h < |req| && n <= req[h] && forall i :: 0 <= i < h ==> req[i] == 0
    ensures Owed(req) == Times(h, n) + Owed(req[h := req[h] - n])
  {
    var req' := req[h := req[h] - n];
    SkipZeros(req, 0, h);
    SkipZeros(req', 0, h);
    OwedSuffix(req, req', h + 1);
    assert Times(h, req[h]) == Times(h, n) + Times(h, req'[h]);
  }

  /** What is owed includes at least the last handle's requests. */
  lemma {:induction false} LastOwed(req: seq<nat>, h: nat)
    requires h < |req|
    ensures |OwedFrom(req, h)| >= req[|req| - 1]
    ensures h == |req| - 1 ==> |OwedFrom(req, h)| == req[h]
    decreases |req| - h
  {
    if h + 1 < |req| {
      LastOwed(req, h + 1);
    }
  }

  lemma {:induction false} OwedNothing(req: seq<nat>, h: nat)
    requires h <= |req|
    ensures OwedFrom(req, h) == [] <==> forall i :: h <= i < |req| ==> req[i] == 0
    decreases |req| - h
  {
    if h < |req| {
      OwedNothing(req, h + 1);
    }
  }

  /** The counter of a handle is exactly the number of its completions owed. */
  lemma {:induction false} CountOwed(req: seq<nat>, from: nat, h: nat)
    requires from <= |req| && h < |req|
    ensures multiset(OwedFrom(req, from))[h] == if from <= h then req[h] else 0
    decreases |req| - from
  {
    if from < |req| {
      CountOwed(req, from + 1, h);
      TimesCount(from, req[from], h);
      CountConcat(Times(from, req[from]), OwedFrom(req, from + 1), h);
    }
  }

  lemma {:induction false} CountConcat(a: seq<int>, b: seq<int>, h: int)
    ensures multiset(a + b)[h] == multiset(a)[h] + multiset(b)[h]
  {
  }

  lemma {:induction false} TimesCount(x: int, n: nat, h: int)
    ensures multiset(Times(x, n))[h] == if x == h then n else 0
  {
    if n > 0 {
      TimesCount(x, n - 1, h);
      assert Times(x, n) == Times(x, n - 1) + [x];
    }
  }

  /** How many completions a budget pays for; a negative one pays for none. */
  function Answered(owed: seq<int>, count: int): (n: nat)
    ensures n <= |owed|
  {
    if count < 0 then 0 else if count < |owed| then count else |owed|
  }

  /** When the read loop drops the pending flag: it got to the last handle and left nothing there. */
  predicate Clears(req: seq<nat>, count: int)
    requires |req| == MAX_HANDLE
  {
    var last := req[MAX_HANDLE - 1];
    if count < 0 then last == 0 else |Owed(req)| - last < count && |Owed(req)| <= count
  }

  ghost predicate Progress(owed: seq<int>, data: seq<SensorEvent>, clock: nat -> int, req: seq<nat>) {
    && |data| <= |owed| && Owed(req) == owed[|data|..]
    && forall i :: 0 <= i < |data| ==> data[i] == FlushComplete(owed[i], clock(i))
  }

  /** Answering part of the next handle is progress; and when that handle is the last, all it answers is owed to it. */
  lemma {:induction false} Visited(owed: seq<int>, data: seq<SensorEvent>, clock: nat -> int, req: seq<nat>, h: nat,
        out: seq<SensorEvent>)
    requires Progress(owed, data, clock, req)
    requires h < |req| == MAX_HANDLE && |out| <= req[h] && forall i :: 0 <= i < h ==> req[i] == 0
    requires forall i :: 0 <= i < |out| ==> out[i] == FlushComplete(h, clock(|data| + i))
    ensures Progress(owed, data + out, clock, req[h := req[h] - |out|])
    ensures h == MAX_HANDLE - 1 ==> |owed| == |data| + req[h]
  {
    Answer(req, h, |out|);
    SkipZeros(req, 0, h);
    LastOwed(req, h);
    forall i | |data| <= i < |data + out| ensures (data + out)[i] == FlushComplete(owed[i], clock(i)) {
      assert owed[i] == Owed(req)[i - |data|];
      assert (data + out)[i] == out[i - |data|];
    }
  }

  /** How the outer loop can stop: with budget left nothing is owed; without, at least the handles ahead still are. */
  lemma {:induction false} Stopped(req: seq<nat>, handle: nat, left: nat)
    requires |req| == MAX_HANDLE && handle <= MAX_HANDLE && (left > 0 ==> handle == MAX_HANDLE)
    requires forall i :: 0 <= i < handle && (left > 0 || i < handle - 1) ==> req[i] == 0
    ensures left > 0 ==> Owed(req) == []
    ensures |Owed(req)| >= req[MAX_HANDLE - 1]
    ensures handle == MAX_HANDLE ==> |Owed(req)| == req[MAX_HANDLE - 1]
  {
    OwedNothing(req, 0);
    LastOwed(req, 0);
    if handle == MAX_HANDLE {
      SkipZeros(req, 0, MAX_HANDLE - 1);
      LastOwed(req, MAX_HANDLE - 1);
    }
  }

  /** Conservation, handle by handle: accepted = delivered + the counter. */
  ghost predicate Conserved(accepted: multiset<int>, delivered: multiset<int>, req: seq<nat>) {
    forall h: int :: accepted[h] == delivered[h] + if 0 <= h < |req| then req[h] else 0
  }

  /** In terms of what is owed. */
  lemma {:induction false} ConservedIs(accepted: multiset<int>, delivered: multiset<int>, req: seq<nat>)
    ensures Conserved(accepted, delivered, req) <==> accepted == delivered + multiset(Owed(req))
  {
    forall h: int ensures multiset(Owed(req))[h] == if 0 <= h < |req| then req[h] else 0 {
      if 0 <= h < |req| {
        CountOwed(req, 0, h);
      } else {
        OnlyHandles(req, 0, h);
      }
    }
    if Conserved(accepted, delivered, req) {
      assert forall h: int :: accepted[h] == (delivered + multiset(Owed(req)))[h];
    }
  }

  lemma {:induction false} OnlyHandles(req: seq<nat>, from: nat, h: int)
    requires from <= |req| && !(from <= h < |req|)
    ensures h !in OwedFrom(req, from)
    decreases |req| - from
  {
    if from < |req| {
      OnlyHandles(req, from + 1, h);
    }
  }

  class BatchSensor {
    const flushSensorReq: array<nat>
    var hasPendingEvent: bool

    // Per handle, over the sensor's life: flushes accepted and completions delivered.
    ghost var accepted: multiset<int>
    ghost var delivered: multiset<int>

    ghost function Requests(): seq<nat>
      reads this, flushSensorReq
    {
      flushSensorReq[..]
    }

    /** Conservation over every run: accepted = delivered + still owed, handle by handle. */
    ghost predicate Valid()
      reads this, flushSensorReq
    {
      flushSensorReq.Length == MAX_HANDLE && Conserved(accepted, delivered, Requests())
    }

    /** No request is owed while the driver says it has nothing pending. */
    ghost predicate Signalled()
      reads this, flushSensorReq
    {
      Owed(Requests()) != [] ==> hasPendingEvent
    }

    constructor ()
      ensures Valid() && Signalled() && fresh(flushSensorReq)
      ensures Owed(Requests()) == [] && !hasPendingEvent && accepted == multiset{} && delivered == multiset{}
    {
      flushSensorReq := new nat[MAX_HANDLE](i => 0);
      hasPendingEvent := false;
      accepted, delivered := multiset{}, multiset{};
      new;
      OwedNothing(flushSensorReq[..], 0);
    }

    method Flush(handle: nat) returns (r: int)
      requires Valid() && handle < MAX_HANDLE
      modifies this, flushSensorReq
      ensures Valid() && hasPendingEvent && r == 0
      ensures Requests() == old(Requests())[handle := old(Requests())[handle] + 1]
      ensures accepted == old(accepted) + multiset{handle} && delivered == old(delivered)
    {
      ghost var before := flushSensorReq[..];
      flushSensorReq[handle] := flushSensorReq[handle] + 1;
      hasPendingEvent := true;
      accepted := accepted + multiset{handle};
      assert flushSensorReq[..] == before[handle := before[handle] + 1];
      return 0;
    }

    /** Delivers the first `count` completions owed, in order, and leaves the rest owed. The pending flag drops exactly
        when `Clears` says so. */
    method ReadEvents(count: int, clock: nat -> int) returns (data: seq<SensorEvent>)
      requires Valid()
      modifies this, flushSensorReq
      ensures Valid() && accepted == old(accepted)
      ensures var owed := old(Owed(Requests()));
              var n := Answered(owed, count);
              |data| == n && Owed(Requests()) == owed[n..]
              && forall i :: 0 <= i < n ==> data[i] == FlushComplete(owed[i], clock(i))
      ensures hasPendingEvent == (old(hasPendingEvent) && !Clears(old(Requests()), count))
    {
      ghost var owed := Owed(flushSensorReq[..]);
      var handle;
      data, handle := Scan(count, clock);
      if handle == MAX_HANDLE && flushSensorReq[handle - 1] == 0 {
        hasPendingEvent := false;
      }
      delivered := delivered + multiset(owed[..|data|]);
      assert Conserved(accepted, delivered, Requests()) by {
        ConservedIs(accepted, old(delivered), old(Requests()));
        SplitOwed(owed, |data|);
        ConservedIs(accepted, delivered, Requests());
      }
    }

    /** The outer loop, and where it stopped. */
    method Scan(count: int, clock: nat -> int) returns (data: seq<SensorEvent>, handle: nat)
      requires flushSensorReq.Length == MAX_HANDLE
      modifies flushSensorReq
      ensures handle <= MAX_HANDLE && |data| == Answered(old(Owed(Requests())), count)
      ensures Progress(old(Owed(Requests())), data, clock, Requests())
      ensures count < 0 ==> Requests() == old(Requests())
      ensures handle == MAX_HANDLE && Requests()[MAX_HANDLE - 1] == 0 <==> Clears(old(Requests()), count)
    {
      ghost var req0, last := flushSensorReq[..], MAX_HANDLE - 1;
      ghost var owed := Owed(req0);
      data := [];
      handle := 0;
      var left := count;
      while handle < MAX_HANDLE && left != 0
        invariant 0 <= handle <= MAX_HANDLE && left == count - |data|
        invariant forall i :: handle <= i < MAX_HANDLE ==> flushSensorReq[i] == req0[i]
        invariant count < 0 ==> data == [] && flushSensorReq[..] == req0
        invariant Progress(owed, data, clock, flushSensorReq[..]) && (count >= 0 ==> left >= 0)
        invariant count >= 0 ==> forall i :: 0 <= i < handle && (left > 0 || i < handle - 1) ==> flushSensorReq[i] == 0
        invariant count >= 0 && handle == MAX_HANDLE ==> |owed| - req0[last] < count
      {
        ghost var req := flushSensorReq[..];
        var out := Visit(handle, left, |data|, clock);
        if left > 0 {
          Visited(owed, data, clock, req, handle, out);
        } else {
          assert flushSensorReq[..] == req;
        }
        data := data + out;
        left := left - |out|;
        handle := handle + 1;
      }
      if count >= 0 {
        Stopped(flushSensorReq[..], handle, left);
      }
    }

    /** The inner loop: answers one handle as far as the budget goes. */
    method Visit(handle: nat, budget: int, first: nat, clock: nat -> int) returns (out: seq<SensorEvent>)
      requires handle < flushSensorReq.Length
      modifies flushSensorReq
      ensures var n := old(flushSensorReq[handle]);
              |out| == (if budget < 0 then 0 else if budget < n then budget else n)
              && flushSensorReq[..] == old(flushSensorReq[..])[handle := n - |out|]
      ensures forall i :: 0 <= i < |out| ==> out[i] == FlushComplete(handle % 0x1_0000, clock(first + i))
    {
      out := [];
      var left := budget;
      while flushSensorReq[handle] > 0 && left > 0
        invariant left == budget - |out| && (budget < 0 ==> out == []) && (budget >= 0 ==> left >= 0)
        invariant |out| <= old(flushSensorReq[handle])
        invariant flushSensorReq[..] == old(flushSensorReq[..])[handle := old(flushSensorReq[handle]) - |out|]
        invariant forall i :: 0 <= i < |out| ==> out[i] == FlushComplete(handle % 0x1_0000, clock(first + i))
      {
        out := out + [FlushComplete(handle % 0x1_0000, clock(first + |out|))];
        flushSensorReq[handle] := flushSensorReq[handle] - 1;
        left := left - 1;
      }
    }
  }

  /** The pending flag covers whatever is owed after a read if and only if the budget was not negative, or the last
      handle had a request, or nothing was owed to begin with: a negative budget answers nobody, yet reaches the last
      handle and drops the flag there. */
  lemma {:induction false} FlagCoversOwed(req: seq<nat>, pending: bool, count: int)
    requires |req| == MAX_HANDLE && (Owed(req) != [] ==> pending)
    ensures var left := Owed(req)[Answered(Owed(req), count)..];
            (left != [] ==> pending && !Clears(req, count))
            <==> count >= 0 || req[MAX_HANDLE - 1] > 0 || Owed(req) == []
  {
    LastOwed(req, 0);
  }

  lemma {:induction false} OneOwed(req: seq<nat>, h: nat)
    requires h < |req| && req[h] == 1 && forall i :: 0 <= i < |req| && i != h ==> req[i] == 0
    ensures Owed(req) == [h]
  {
    SkipZeros(req, 0, h);
    SkipZeros(req, h + 1, |req|);
  }

  /** It does happen: one flush of any handle but the last, and a read with a negative budget leaves it owed and the flag
      down. */
  method NegativeBudgetLosesFlush(h: nat, clock: nat -> int) returns (b: BatchSensor)
    requires h < MAX_HANDLE - 1
    ensures fresh(b) && b.Valid() && Owed(b.Requests()) == [h] && !b.hasPendingEvent
  {
    b := new BatchSensor();
    OwedNothing(b.Requests(), 0);
    var _ := b.Flush(h);
    OneOwed(b.Requests(), h);
    var _ := b.ReadEvents(-1, clock);
  }

  lemma {:induction false} SplitOwed(owed: seq<int>, n: nat)
    requires n <= |owed|
    ensures multiset(owed) == multiset(owed[..n]) + multiset(owed[n..])
  {
    assert owed == owed[..n] + owed[n..];
  }

  /** One more request on a handle is one more completion owed to it, and to it alone. */
  lemma {:induction false} OneMore(req: seq<nat>, h: nat)
    requires h < |req|
    ensures multiset(Owed(req[h := req[h] + 1])) == multiset(Owed(req)) + multiset{h as int}
  {
    var one: multiset<int> := multiset{h as int};
    ConservedIs(multiset(Owed(req)), multiset{}, req);
    ConservedIs(multiset(Owed(req)) + one, multiset{}, req[h := req[h] + 1]);
  }
}
