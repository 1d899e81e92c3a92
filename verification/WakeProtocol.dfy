/** Flush and poll as concurrent threads: per-handle counters, a pending flag and a wake pipe, with no lock. */
module WakeProtocol {

  /** Where the polling thread stands. `Visit(k)` is inside the batch driver's read, about to look at handle k; `Dropping`
      is at its end, between the test that decides to drop the pending flag and the store that does. The flag is
      looked at before the read, and flushing threads may run anywhere in between. */
  datatype Pc =
    | Outside          // not in pollEvents
    | Look             // about to test the batch driver's pending flag
    | Visit(k: nat)
    | Dropping
    | Others           // about to read the other drivers
    | AtPoll           // about to wait in poll(), or waiting there
    | Woken            // poll() reported the wake pipe

  /** A flushing thread takes three steps: it counts its request, sets the flag, and writes a byte to the pipe.
      `setting[h]` and `writing[h]` are how many threads flushing handle h still have to do the second and the third. */
  datatype State = State(
    pc: Pc, count: nat, events: nat, pending: bool, pipe: nat, pipeSize: nat,
    req: seq<nat>, setting: seq<nat>, writing: seq<nat>, accepted: seq<nat>, delivered: seq<nat>)

  datatype Label =
    // the polling thread
    | Call(budget: nat) | Test | Answer | EndScan | Drop | Rest(n: nat) | PollReturns(ready: bool) | PollFails | TakeByte
    // flushing threads, and activate() which only writes to the pipe
    | Count(h: nat) | Set(h: nat) | Write(h: nat) | WakeOnly

  predicate ByPoller(l: Label) { !(l.Count? || l.Set? || l.Write? || l.WakeOnly?) }

  /** The poller alone takes these steps. */
  predicate Alone(ls: seq<Label>) { forall i :: 0 <= i < |ls| ==> ByPoller(ls[i]) }

  predicate Shape(s: State) {
    && 0 < |s.req| == |s.setting| == |s.writing| == |s.accepted| == |s.delivered|
    && 0 < s.pipeSize && s.pipe <= s.pipeSize
    && (s.pc.Visit? ==> s.pc.k <= |s.req|)
  }

  function Zeros(n: nat): (z: seq<nat>)
    ensures |z| == n && forall i :: 0 <= i < n ==> z[i] == 0
  {
    seq(n, i => 0)
  }

  function Init(handles: nat, pipeSize: nat): State {
    var z := Zeros(handles);
    State(Outside, 0, 0, false, 0, pipeSize, z, z, z, z, z)
  }

  predicate Enabled(s: State, l: Label)
    requires Shape(s)
  {
    match l
    case Call(budget) => s.pc.Outside? && budget >= 1
    case Test => s.pc.Look?
    case Answer => s.pc.Visit? && s.pc.k < |s.req| && s.count != 0
    case EndScan => s.pc.Visit? && (s.pc.k == |s.req| || s.count == 0)
    case Drop => s.pc.Dropping?
    case Rest(n) => s.pc.Others? && n <= s.count
    case PollReturns(ready) => s.pc.AtPoll? && (s.pipe > 0 || ready || s.events > 0)
    case PollFails => s.pc.AtPoll?
    case TakeByte => s.pc.Woken? && s.pipe > 0
    case Count(h) => h < |s.req|
    case Set(h) => h < |s.req| && s.setting[h] > 0
    case Write(h) => h < |s.req| && s.writing[h] > 0
    case WakeOnly => true
  }

  function Least(a: nat, b: nat): nat { if a < b then a else b }

  function Next(s: State, l: Label): (s': State)
    requires Shape(s) && Enabled(s, l)
    ensures Shape(s')
  {
    match l
    case Call(budget) => s.(pc := Look, count := budget, events := 0)
    case Test => s.(pc := if s.pending then Visit(0) else Others)
    case Answer =>
      var (h, n) := (s.pc.k, Least(s.req[s.pc.k], s.count));
      s.(pc := Visit(h + 1), count := s.count - n, events := s.events + n,
         req := s.req[h := s.req[h] - n], delivered := s.delivered[h := s.delivered[h] + n])
    case EndScan => s.(pc := if Drops(s) then Dropping else Others)
    case Drop => s.(pc := Others, pending := false)
    case Rest(n) =>
      s.(pc := if s.count == n then Outside else AtPoll, count := s.count - n, events := s.events + n)
    case PollReturns(ready) =>
      s.(pc := if s.pipe > 0 then Woken else if ready then Look else Outside)
    case PollFails => s.(pc := Outside)
    case TakeByte => s.(pc := Look, pipe := s.pipe - 1)
    case Count(h) =>
      s.(req := s.req[h := s.req[h] + 1], setting := s.setting[h := s.setting[h] + 1],
         accepted := s.accepted[h := s.accepted[h] + 1])
    case Set(h) =>
      s.(pending := true, setting := s.setting[h := s.setting[h] - 1], writing := s.writing[h := s.writing[h] + 1])
    case Write(h) => s.(writing := s.writing[h := s.writing[h] - 1], pipe := Least(s.pipe + 1, s.pipeSize))
    case WakeOnly => s.(pipe := Least(s.pipe + 1, s.pipeSize))
  }

  /** The test at the end of the batch driver's read. */
  predicate Drops(s: State)
    requires Shape(s) && s.pc.Visit?
  {
    s.pc.k == |s.req| && s.req[|s.req| - 1] == 0
  }

  /** Inside the batch driver's read. */
  predicate InScan(s: State) { s.pc.Visit? || s.pc.Dropping? }

  /** Handle `h` lies behind the scan: what is counted there now is not answered by it, nor seen by the test at its end. */
  predicate Behind(s: State, h: nat) {
    h < |s.req| && (s.pc.Dropping? || (s.pc.Visit? && h < s.pc.k && h < |s.req| - 1))
  }

  /** The one harmful step: the flag is dropped although some request has no thread left that will raise it again. */
  ghost predicate BadDrop(s: State, l: Label)
    requires Shape(s) && Enabled(s, l)
  {
    l.Drop? && exists h :: 0 <= h < |s.req| && s.req[h] > s.setting[h]
  }

  /** How it comes about. A flushing thread sets the flag for a handle behind the scan, and it is the last of that handle's
      owed requests still to set it: the flag it sets is the one the scan may be about to drop. */
  predicate Races(s: State, l: Label)
    requires Shape(s)
  {
    l.Set? && Behind(s, l.h) && s.req[l.h] >= s.setting[l.h]
  }

  // ---- Runs ----

  ghost predicate IsRun(s: State, ls: seq<Label>, t: State)
    requires Shape(s)
    decreases |ls|
  {
    if ls == [] then s == t
    else Enabled(s, ls[0]) && IsRun(Next(s, ls[0]), ls[1..], t)
  }

  /** No step of the run drops the flag too early. */
  ghost predicate DropSafe(s: State, ls: seq<Label>)
    requires Shape(s)
    decreases |ls|
  {
    ls == [] || (Enabled(s, ls[0]) && !BadDrop(s, ls[0]) && DropSafe(Next(s, ls[0]), ls[1..]))
  }

  ghost predicate RaceFree(s: State, ls: seq<Label>)
    requires Shape(s)
    decreases |ls|
  {
    ls == [] || (Enabled(s, ls[0]) && !Races(s, ls[0]) && RaceFree(Next(s, ls[0]), ls[1..]))
  }

  /** The request is owed, the flag is down, and no thread is left to raise it on the request's behalf. */
  predicate Stranded(s: State, h: nat)
    requires Shape(s)
  {
    h < |s.req| && !s.pending && s.req[h] > s.setting[h]
  }

  /** No state of the run has a stranded request. */
  ghost predicate NeverStranded(s: State, ls: seq<Label>)
    requires Shape(s)
    decreases |ls|
  {
    && (forall h: nat :: !Stranded(s, h))
    && (ls == [] || (Enabled(s, ls[0]) && NeverStranded(Next(s, ls[0]), ls[1..])))
  }

  // ---- What every interleaving keeps ----

  /** Conservation: per handle, accepted = delivered + owed. */
  ghost predicate Conserved(s: State)
    requires Shape(s)
  {
    forall h :: 0 <= h < |s.req| ==> s.accepted[h] == s.delivered[h] + s.req[h]
  }

  lemma {:induction false} AlwaysConserved(s: State, ls: seq<Label>, t: State)
    requires Shape(s) && Conserved(s) && IsRun(s, ls, t)
    ensures Shape(t) && Conserved(t)
    decreases |ls|
  {
    if ls != [] {
      AlwaysConserved(Next(s, ls[0]), ls[1..], t);
    }
  }

  // ---- What every interleaving keeps that does not drop the flag too early ----

  /** A handle the scan has passed, so that nothing counted before is left there. */
  predicate Passed(s: State, h: nat)
    requires s.pc.Visit?
  {
    h < s.pc.k && (s.count > 0 || h + 1 < s.pc.k)
  }

  /** While the flag is down, the requests owed to a handle do not outnumber the threads that have yet to set the flag for
      it. While the pipe is empty, for handles the scan has passed and once the poller is past the scan, they do not
      outnumber the threads that have yet to write their byte. */
  ghost predicate Inv(s: State) {
    && Shape(s)
    && (!s.pending ==> !InScan(s) && forall h :: 0 <= h < |s.req| ==> s.req[h] <= s.setting[h])
    && (s.pc.Visit? && s.pipe == 0 ==>
          forall h :: 0 <= h < |s.req| && Passed(s, h) ==> s.req[h] <= s.setting[h] + s.writing[h])
    && ((s.pc.Dropping? || ((s.pc.Others? || s.pc.AtPoll?) && s.count > 0)) && s.pipe == 0 ==>
          forall h :: 0 <= h < |s.req| ==> s.req[h] <= s.setting[h] + s.writing[h])
    && (s.pc.AtPoll? ==> s.count > 0)
    && (s.pc.Woken? ==> s.pipe > 0)
  }

  lemma {:induction false} InvPollerStep(s: State, l: Label)
    requires Inv(s) && Enabled(s, l) && ByPoller(l) && !BadDrop(s, l)
    ensures Inv(Next(s, l))
  {
  }

  lemma {:induction false} InvFlusherStep(s: State, l: Label)
    requires Inv(s) && Enabled(s, l) && !ByPoller(l)
    ensures Inv(Next(s, l))
  {
  }

  lemma {:induction false} InvStep(s: State, l: Label)
    requires Inv(s) && Enabled(s, l) && !BadDrop(s, l)
    ensures Inv(Next(s, l))
  {
    if ByPoller(l) {
      InvPollerStep(s, l);
    } else {
      InvFlusherStep(s, l);
    }
  }

  lemma {:induction false} InvRun(s: State, ls: seq<Label>, t: State)
    requires Inv(s) && IsRun(s, ls, t) && DropSafe(s, ls)
    ensures Inv(t)
    decreases |ls|
  {
    if ls != [] {
      InvStep(s, ls[0]);
      InvRun(Next(s, ls[0]), ls[1..], t);
    }
  }

  /** Exactness over whole runs, from every state the protocol keeps: no request is ever stranded if and only if no step of
      the run drops the flag too early. */
  lemma {:induction false} StrandedExactlyByBadDrop(s: State, ls: seq<Label>, t: State)
    requires Inv(s) && IsRun(s, ls, t)
    ensures NeverStranded(s, ls) <==> DropSafe(s, ls)
    decreases |ls|
  {
    if ls != [] {
      if BadDrop(s, ls[0]) {
        var h: nat :| h < |s.req| && s.req[h] > s.setting[h];
        assert Stranded(Next(s, ls[0]), h);
      } else {
        InvStep(s, ls[0]);
        StrandedExactlyByBadDrop(Next(s, ls[0]), ls[1..], t);
      }
    }
  }

  /** No lost wake-up. In every run that does not drop the flag too early, while the poller waits with an empty pipe every
      request still owed has a thread of its own that has yet to write its byte; and once no flush is in flight, a
      request still owed means that the pipe wakes the poller and the flag makes its next scan answer. */
  lemma {:induction false} NoLostWakeup(handles: nat, pipeSize: nat, ls: seq<Label>, t: State)
    requires handles > 0 && pipeSize > 0
    requires IsRun(Init(handles, pipeSize), ls, t) && DropSafe(Init(handles, pipeSize), ls)
    ensures |t.req| == |t.setting| == |t.writing|
    ensures t.pc.AtPoll? && t.pipe == 0 ==> forall h :: 0 <= h < |t.req| ==> t.req[h] <= t.setting[h] + t.writing[h]
    ensures t.pc.AtPoll? && (forall h :: 0 <= h < |t.req| ==> t.setting[h] == 0 && t.writing[h] == 0)
            && (exists h :: 0 <= h < |t.req| && t.req[h] > 0)
            ==> t.pipe > 0 && t.pending
  {
    InvRun(Init(handles, pipeSize), ls, t);
  }

  // ---- Runs without a race are such runs ----

  /** Behind the scan, requests owed do not outnumber the threads that have yet to set the flag. */
  ghost predicate Clean(s: State)
    requires Shape(s)
  {
    && (s.pc.Visit? ==> forall h :: 0 <= h < |s.req| - 1 && Passed(s, h) ==> s.req[h] <= s.setting[h])
    && (s.pc.Dropping? ==> forall h :: 0 <= h < |s.req| ==> s.req[h] <= s.setting[h])
  }

  lemma {:induction false} CleanPollerStep(s: State, l: Label)
    requires Shape(s) && Clean(s) && Enabled(s, l) && ByPoller(l)
    ensures Clean(Next(s, l)) && !BadDrop(s, l)
  {
  }

  lemma {:induction false} CleanFlusherStep(s: State, l: Label)
    requires Shape(s) && Clean(s) && Enabled(s, l) && !ByPoller(l) && !Races(s, l)
    ensures Clean(Next(s, l)) && !BadDrop(s, l)
  {
  }

  lemma {:induction false} RaceFreeIsSafe(s: State, ls: seq<Label>)
    requires Shape(s) && Clean(s) && RaceFree(s, ls)
    ensures DropSafe(s, ls)
    decreases |ls|
  {
    if ls != [] {
      if ByPoller(ls[0]) {
        CleanPollerStep(s, ls[0]);
      } else {
        CleanFlusherStep(s, ls[0]);
      }
      RaceFreeIsSafe(Next(s, ls[0]), ls[1..]);
    }
  }

  /** When no flushing thread runs inside the batch driver's read, nothing races. */
  ghost predicate ReadsAreAtomic(s: State, ls: seq<Label>)
    requires Shape(s)
    decreases |ls|
  {
    ls == [] || (Enabled(s, ls[0]) && (InScan(s) ==> ByPoller(ls[0])) && ReadsAreAtomic(Next(s, ls[0]), ls[1..]))
  }

  lemma {:induction false} AtomicReadsDoNotRace(s: State, ls: seq<Label>)
    requires Shape(s) && ReadsAreAtomic(s, ls)
    ensures RaceFree(s, ls)
    decreases |ls|
  {
    if ls != [] {
      AtomicReadsDoNotRace(Next(s, ls[0]), ls[1..]);
    }
  }

  /** With atomic reads, then, no wake-up is lost. */
  lemma {:induction false} AtomicReadsLoseNoWakeup(handles: nat, pipeSize: nat, ls: seq<Label>, t: State)
    requires handles > 0 && pipeSize > 0
    requires IsRun(Init(handles, pipeSize), ls, t) && ReadsAreAtomic(Init(handles, pipeSize), ls)
    ensures |t.req| == |t.setting| == |t.writing|
    ensures t.pc.AtPoll? && t.pipe == 0 ==> forall h :: 0 <= h < |t.req| ==> t.req[h] <= t.setting[h] + t.writing[h]
    ensures t.pc.AtPoll? && (forall h :: 0 <= h < |t.req| ==> t.setting[h] == 0 && t.writing[h] == 0)
            && (exists h :: 0 <= h < |t.req| && t.req[h] > 0)
            ==> t.pipe > 0 && t.pending
  {
    AtomicReadsDoNotRace(Init(handles, pipeSize), ls);
    RaceFreeIsSafe(Init(handles, pipeSize), ls);
    NoLostWakeup(handles, pipeSize, ls, t);
  }

  // ---- Over any run, the flag is dropped too early exactly by scans that were raced ----

  /** Some handle behind the scan is owed more than it has threads to set the flag. */
  ghost predicate Indebted(s: State)
    requires Shape(s)
  {
    exists h: nat :: Behind(s, h) && s.req[h] > s.setting[h]
  }

  /** No scan drops the flag after a race in that same scan. `raced` says whether the scan under way has been raced. */
  ghost predicate NoRacedDrop(s: State, ls: seq<Label>, raced: bool)
    requires Shape(s)
    decreases |ls|
  {
    ls == [] || (Enabled(s, ls[0]) && !(ls[0].Drop? && raced)
                 && NoRacedDrop(Next(s, ls[0]), ls[1..], RacedAfter(s, ls[0], raced)))
  }

  /** A scan starts when the flag is looked at. */
  predicate RacedAfter(s: State, l: Label, raced: bool)
    requires Shape(s)
  {
    !l.Test? && (raced || Races(s, l))
  }

  /** Inside a scan, a race leaves a debt, and no race leaves none. */
  ghost predicate Told(s: State, raced: bool)
    requires Shape(s)
  {
    InScan(s) ==> if raced then Indebted(s) else Clean(s)
  }

  /** A debt behind the scan lasts as long as the scan, whatever other threads do. */
  lemma {:induction false} DebtLasts(s: State, l: Label, h: nat)
    requires Shape(s) && Enabled(s, l) && Behind(s, h) && s.req[h] > s.setting[h] && InScan(Next(s, l))
    ensures Behind(Next(s, l), h) && Next(s, l).req[h] > Next(s, l).setting[h]
  {
  }

  lemma {:induction false} RaceLeavesDebt(s: State, l: Label)
    requires Shape(s) && Enabled(s, l) && Races(s, l)
    ensures Indebted(Next(s, l))
  {
    assert Behind(Next(s, l), l.h);
  }

  lemma {:induction false} TellsOn(s: State, l: Label, raced: bool)
    requires Shape(s) && Enabled(s, l) && Told(s, raced)
    ensures Told(Next(s, l), RacedAfter(s, l, raced))
    ensures BadDrop(s, l) <==> l.Drop? && raced
  {
    if !InScan(s) {
      // the next scan, if one starts, has passed no handle yet
    } else if raced {
      var h: nat :| Behind(s, h) && s.req[h] > s.setting[h];
      if InScan(Next(s, l)) {
        DebtLasts(s, l, h);
      }
    } else if Races(s, l) {
      RaceLeavesDebt(s, l);
    } else if ByPoller(l) {
      CleanPollerStep(s, l);
    } else {
      CleanFlusherStep(s, l);
    }
  }

  /** Over any run, whatever the flushing threads do: it never drops the flag too early if and only if no scan in it that was
      raced drops the flag. */
  lemma {:induction false} SafeExactlyWithoutRacedDrop(s: State, ls: seq<Label>, t: State, raced: bool)
    requires Shape(s) && IsRun(s, ls, t) && Told(s, raced)
    ensures DropSafe(s, ls) <==> NoRacedDrop(s, ls, raced)
    decreases |ls|
  {
    if ls != [] {
      TellsOn(s, ls[0], raced);
      SafeExactlyWithoutRacedDrop(Next(s, ls[0]), ls[1..], t, RacedAfter(s, ls[0], raced));
    }
  }

  // ---- The race is real, and exactly which races strand their flush ----

  lemma {:induction false} RunConcat(s: State, a: seq<Label>, m: State, b: seq<Label>, t: State)
    requires Shape(s) && IsRun(s, a, m) && Shape(m) && IsRun(m, b, t)
    ensures IsRun(s, a + b, t)
    decreases |a|
  {
    if a == [] {
      assert a + b == b;
    } else {
      RunConcat(Next(s, a[0]), a[1..], m, b, t);
      assert (a + b)[1..] == a[1..] + b;
    }
  }

  lemma {:induction false} Then(s: State, a: seq<Label>, m: State, l: Label) returns (b: seq<Label>, t: State)
    requires Shape(s) && IsRun(s, a, m) && Shape(m) && Enabled(m, l)
    ensures b == a + [l] && t == Next(m, l) && IsRun(s, b, t)
  {
    b, t := a + [l], Next(m, l);
    assert IsRun(m, [l], t);
    RunConcat(s, a, m, [l], t);
  }

  function SumFrom(req: seq<nat>, k: nat): nat
    requires k <= |req|
    decreases |req| - k
  {
    if k == |req| then 0 else req[k] + SumFrom(req, k + 1)
  }

  lemma {:induction false} SameSum(a: seq<nat>, b: seq<nat>, k: nat)
    requires k <= |a| == |b| && forall i :: k <= i < |a| ==> a[i] == b[i]
    ensures SumFrom(a, k) == SumFrom(b, k)
    decreases |a| - k
  {
    if k < |a| {
      SameSum(a, b, k + 1);
    }
  }

  /** Seen from any point of a scan: left alone, the poller will drop the flag at its end. The budget gets it to the last
      handle and pays for everything owed there, or it is there already and nothing is owed. */
  predicate WillDrop(s: State)
    requires Shape(s) && s.pc.Visit?
  {
    var k, last := s.pc.k, s.req[|s.req| - 1];
    if k == |s.req| then last == 0
    else SumFrom(s.req, k) - last < s.count && SumFrom(s.req, k) <= s.count
  }

  lemma {:induction false} LastInSum(req: seq<nat>, k: nat)
    requires k < |req|
    ensures SumFrom(req, k) >= req[|req| - 1]
    decreases |req| - k
  {
    if k + 1 < |req| {
      LastInSum(req, k + 1);
    }
  }

  lemma {:induction false} AnswerKeepsWillDrop(s: State)
    requires Shape(s) && Enabled(s, Answer)
    ensures WillDrop(Next(s, Answer)) <==> WillDrop(s)
  {
    var t, k := Next(s, Answer), s.pc.k;
    SameSum(s.req, t.req, k + 1);
    LastInSum(s.req, k);
    if k + 1 < |s.req| {
      LastInSum(s.req, k + 1);
    }
  }

  lemma {:induction false} EndScanDrops(s: State)
    requires Shape(s) && Enabled(s, EndScan)
    ensures Drops(s) <==> WillDrop(s)
  {
    if s.pc.k < |s.req| {
      LastInSum(s.req, s.pc.k);
    }
  }

  /** The scan has decided to drop the flag, or will decide so if left alone. */
  predicate Doomed(s: State)
    requires Shape(s) && InScan(s)
  {
    s.pc.Dropping? || WillDrop(s)
  }

  /** Left alone, the poller gets to the end of its loop, keeps the handles it has passed as they were, and decides to drop
      the flag exactly when `WillDrop` says so. */
  lemma {:induction false} FinishLoop(s: State) returns (ls: seq<Label>, t: State)
    requires Shape(s) && s.pc.Visit?
    ensures Shape(t) && IsRun(s, ls, t) && Alone(ls)
    ensures t.pc == (if WillDrop(s) then Dropping else Others) && t.pending == s.pending
    ensures t.pipe == s.pipe && t.setting == s.setting && |t.req| == |s.req|
    ensures forall i :: 0 <= i < s.pc.k ==> t.req[i] == s.req[i]
    decreases |s.req| - s.pc.k
  {
    if Enabled(s, EndScan) {
      EndScanDrops(s);
      t := Next(s, EndScan);
      ls := [EndScan];
    } else {
      AnswerKeepsWillDrop(s);
      ls, t := FinishLoop(Next(s, Answer));
      assert ([Answer] + ls)[1..] == ls;
      ls := [Answer] + ls;
    }
  }

  /** And finishes its scan with the flag down exactly when it was doomed. */
  lemma {:induction false} FinishScan(s: State) returns (ls: seq<Label>, t: State)
    requires Shape(s) && InScan(s)
    ensures Shape(t) && IsRun(s, ls, t) && Alone(ls)
    ensures t.pc.Others? && t.pending == (s.pending && !Doomed(s))
    ensures t.pipe == s.pipe && t.setting == s.setting && |t.req| == |s.req|
    ensures forall h: nat :: Behind(s, h) ==> t.req[h] == s.req[h]
  {
    ls, t := [], s;
    if s.pc.Visit? {
      ls, t := FinishLoop(s);
    }
    if t.pc.Dropping? {
      ls, t := Then(s, ls, t, Drop);
    }
  }

  /** With the flag down, the poller only empties the pipe and then waits; out of budget, it returns and is called again. */
  lemma {:induction false} WaitWithFlagDown(s: State) returns (ls: seq<Label>, t: State)
    requires Shape(s) && s.pc.Others? && !s.pending
    ensures Shape(t) && IsRun(s, ls, t) && Alone(ls)
    ensures t.pc.AtPoll? && t.pipe == 0 && !t.pending && t.req == s.req && t.setting == s.setting
    decreases s.pipe, s.count == 0
  {
    if s.count > 0 && s.pipe == 0 {
      ls, t := Then(s, [], s, Rest(0));
    } else {
      var m;
      if s.count == 0 {
        ls, m := ReturnAndCall(s);
      } else {
        ls, m := RestAndTakeByte(s);
      }
      var rest, end := WaitWithFlagDown(m);
      RunConcat(s, ls, m, rest, end);
      ls, t := ls + rest, end;
    }
  }

  lemma {:induction false} ReturnAndCall(s: State) returns (ls: seq<Label>, t: State)
    requires Shape(s) && s.pc.Others? && !s.pending && s.count == 0
    ensures t == s.(pc := Others, count := 1, events := 0) && IsRun(s, ls, t) && Alone(ls)
  {
    ls, t := Then(s, [], s, Rest(0));
    ls, t := Then(s, ls, t, Call(1));
    ls, t := Then(s, ls, t, Test);
  }

  lemma {:induction false} RestAndTakeByte(s: State) returns (ls: seq<Label>, t: State)
    requires Shape(s) && s.pc.Others? && !s.pending && s.count > 0 && s.pipe > 0
    ensures t == s.(pipe := s.pipe - 1) && IsRun(s, ls, t) && Alone(ls)
  {
    ls, t := Then(s, [], s, Rest(0));
    ls, t := Then(s, ls, t, PollReturns(false));
    ls, t := Then(s, ls, t, TakeByte);
    ls, t := Then(s, ls, t, Test);
  }

  /** A stranded flush is never answered by the poller alone: only another flush can raise the flag again. */
  lemma {:induction false} StrandedStays(s: State, ls: seq<Label>, t: State, h: nat)
    requires Shape(s) && IsRun(s, ls, t) && Stranded(s, h) && !InScan(s) && Alone(ls)
    ensures Shape(t) && Stranded(t, h) && t.delivered == s.delivered && !InScan(t)
    decreases |ls|
  {
    if ls != [] {
      assert ByPoller(ls[0]) && Alone(ls[1..]);
      StrandedStays(Next(s, ls[0]), ls[1..], t, h);
    }
  }

  /** Which races do harm. From every state the protocol keeps in which handle `h` lies behind the scan with more owed to it
      than threads yet to set the flag (the state a racing step leaves), every run of the poller alone that has left
      the scan has the flush stranded if and only if the scan was going to drop the flag. */
  lemma {:induction false} StrandsExactly(s: State, ls: seq<Label>, t: State, h: nat)
    requires Inv(s) && Behind(s, h) && s.req[h] > s.setting[h]
    requires IsRun(s, ls, t) && Alone(ls) && Shape(t) && !InScan(t)
    ensures Stranded(t, h) <==> Doomed(s)
    decreases |ls|
  {
    var l, s' := ls[0], Next(s, ls[0]);
    assert ByPoller(l) && Alone(ls[1..]);
    if l.Drop? {
      StrandedStays(s', ls[1..], t, h);
    } else {
      InvPollerStep(s, l);
      if l.Answer? {
        AnswerKeepsWillDrop(s);
      } else {
        EndScanDrops(s);
      }
      if InScan(s') {
        StrandsExactly(s', ls[1..], t, h);
      } else {
        PollerAloneIsSafe(s', ls[1..], t);
      }
    }
  }

  /** The poller alone, starting outside a scan, strands nobody. */
  lemma {:induction false} PollerAloneIsSafe(s: State, ls: seq<Label>, t: State)
    requires Inv(s) && Clean(s) && IsRun(s, ls, t) && Alone(ls)
    ensures Inv(t)
    decreases |ls|
  {
    if ls != [] {
      assert ByPoller(ls[0]) && Alone(ls[1..]);
      CleanPollerStep(s, ls[0]);
      InvPollerStep(s, ls[0]);
      PollerAloneIsSafe(Next(s, ls[0]), ls[1..], t);
    }
  }

  /** A racing step strands its flush if and only if the scan it ran into was going to drop the flag: whatever the poller
      does alone from then on. The test at the end of the scan spares the last handle up to that test, and no longer. */
  lemma {:induction false} RaceStrandsExactly(s: State, h: nat, ls: seq<Label>, t: State)
    requires Inv(s) && Enabled(s, Set(h)) && Races(s, Set(h))
    requires IsRun(Next(s, Set(h)), ls, t) && Alone(ls) && Shape(t) && !InScan(t)
    ensures Stranded(t, h) <==> Doomed(s)
  {
    InvFlusherStep(s, Set(h));
    StrandsExactly(Next(s, Set(h)), ls, t, h);
  }

  /** And then the poller alone does end up waiting on an empty pipe, with the flush stranded. */
  lemma {:induction false} RaceStrandsFlush(s: State, h: nat) returns (ls: seq<Label>, t: State)
    requires Inv(s) && Enabled(s, Set(h)) && Races(s, Set(h)) && Doomed(s)
    ensures Shape(t) && IsRun(Next(s, Set(h)), ls, t) && Alone(ls)
    ensures t.pc.AtPoll? && t.pipe == 0 && Stranded(t, h)
  {
    var s1 := Next(s, Set(h));
    var a, m := FinishScan(s1);
    assert Behind(s1, h);
    var b, t' := WaitWithFlagDown(m);
    RunConcat(s1, a, m, b, t');
    ls, t := a + b, t';
  }

  /** The race can be reached: one flush answered, another counted right behind the scan. */
  lemma {:induction false} RaceIsReachable(handles: nat, pipeSize: nat) returns (ls: seq<Label>, s: State)
    requires handles >= 2 && pipeSize > 0
    ensures IsRun(Init(handles, pipeSize), ls, s) && Inv(s) && Enabled(s, Set(0)) && Races(s, Set(0))
    ensures s.pc.Visit? && WillDrop(s)
  {
    var s0 := Init(handles, pipeSize);
    ls, s := FlushThenCall(handles, pipeSize, 1);
    ls, s := Then(s0, ls, s, Test);
    ls, s := Then(s0, ls, s, Answer);
    ls, s := Then(s0, ls, s, Count(0));
    SumOfOne(s.req, 1, 1);
  }

  /** And so can the race on the last handle, which is counted and set between the test and the store. */
  lemma {:induction false} LastHandleRaceIsReachable(handles: nat, pipeSize: nat) returns (ls: seq<Label>, s: State)
    requires handles >= 1 && pipeSize > 0
    ensures IsRun(Init(handles, pipeSize), ls, s) && Inv(s)
    ensures s.pc.Dropping? && Enabled(s, Set(handles - 1)) && Races(s, Set(handles - 1))
  {
    var s0 := Init(handles, pipeSize);
    var a, m := FlushThenCall(handles, pipeSize, 0);
    a, m := Then(s0, a, m, Test);
    SumOfOne(m.req, 0, 0);
    var b, d := FinishLoop(m);
    PollerAloneIsSafe(m, b, d);
    RunConcat(s0, a, m, b, d);
    InvFlusherStep(d, Count(handles - 1));
    ls, s := Then(s0, a + b, d, Count(handles - 1));
  }

  lemma {:induction false} FlushThenCall(handles: nat, pipeSize: nat, h: nat) returns (ls: seq<Label>, s: State)
    requires h < handles && pipeSize > 0
    ensures IsRun(Init(handles, pipeSize), ls, s)
    ensures var z := Zeros(handles);
            s == State(Look, 2, 0, true, 0, pipeSize, z[h := 1], z, z[h := 1], z[h := 1], z)
  {
    var s0 := Init(handles, pipeSize);
    ls, s := Then(s0, [], s0, Count(h));
    ls, s := Then(s0, ls, s, Set(h));
    ls, s := Then(s0, ls, s, Call(2));
    assert s.setting == Zeros(handles);
  }

  lemma {:induction false} SumOfOne(req: seq<nat>, k: nat, h: nat)
    requires k <= h < |req| && req[h] == 1 && forall i :: k <= i < |req| && i != h ==> req[i] == 0
    ensures SumFrom(req, k) == 1
    decreases h - k
  {
    if k < h {
      SumOfOne(req, k + 1, h);
    } else {
      SameSum(req, Zeros(|req|), k + 1);
      SumOfZeros(|req|, k + 1);
    }
  }

  lemma {:induction false} SumOfZeros(n: nat, k: nat)
    requires k <= n
    ensures SumFrom(Zeros(n), k) == 0
    decreases n - k
  {
    if k < n {
      SumOfZeros(n, k + 1);
    }
  }
}
