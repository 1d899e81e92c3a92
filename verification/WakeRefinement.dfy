/** The protocol's scan, left undisturbed, is the batch driver's read. */
module WakeRefinement {
  import F = BatchFlush
  import W = WakeProtocol

  /** How far the scan has got through the requests `req0` it started from, with the budget it started with. */
  ghost predicate Underway(s: W.State, req0: seq<nat>, budget: nat) {
    && W.Shape(s) && s.pc.Visit? && |s.req| == |req0| == F.MAX_HANDLE
    && s.count <= budget && budget - s.count <= |F.Owed(req0)| && F.Owed(s.req) == F.Owed(req0)[budget - s.count..]
    && (forall i :: 0 <= i < s.pc.k && (s.count > 0 || i < s.pc.k - 1) ==> s.req[i] == 0)
    && (forall i :: s.pc.k <= i < F.MAX_HANDLE ==> s.req[i] == req0[i])
    && (s.pc.k == F.MAX_HANDLE ==> |F.Owed(req0)| - req0[F.MAX_HANDLE - 1] < budget)
  }

  lemma {:induction false} AnswerStaysUnderway(s: W.State, req0: seq<nat>, budget: nat)
    requires Underway(s, req0, budget) && W.Enabled(s, W.Answer)
    ensures Underway(W.Next(s, W.Answer), req0, budget)
  {
    var h, n, owed := s.pc.k, W.Least(s.req[s.pc.k], s.count), F.Owed(req0);
    F.Answer(s.req, h, n);
    F.SkipZeros(s.req, 0, h);
    F.LastOwed(s.req, h);
    var t := W.Next(s, W.Answer);
    var rest := owed[budget - s.count..];
    assert rest[n..] == F.Owed(t.req);
    assert rest[n..] == owed[budget - t.count..];
  }

  lemma {:induction false} EndScanMatches(s: W.State, req0: seq<nat>, budget: nat)
    requires Underway(s, req0, budget) && W.Enabled(s, W.EndScan)
    ensures W.Drops(s) <==> F.Clears(req0, budget)
    ensures budget - s.count == F.Answered(F.Owed(req0), budget)
  {
    F.Stopped(s.req, s.pc.k, s.count);
  }

  /** Run without interruption, the protocol's steps answer exactly the completions the driver's read answers, leave exactly
      those owed that it leaves, and drop the flag exactly when it does. */
  lemma {:induction false} ScanIsRead(s: W.State, req0: seq<nat>, budget: nat) returns (ls: seq<W.Label>, t: W.State)
    requires Underway(s, req0, budget)
    ensures W.Shape(t) && W.IsRun(s, ls, t) && t.pc.Others? && W.Alone(ls)
    ensures F.Owed(t.req) == F.Owed(req0)[F.Answered(F.Owed(req0), budget)..]
    ensures t.count == budget - F.Answered(F.Owed(req0), budget)
    ensures t.pending == (s.pending && !F.Clears(req0, budget))
    decreases F.MAX_HANDLE - s.pc.k
  {
    if s.pc.k == F.MAX_HANDLE || s.count == 0 {
      EndScanMatches(s, req0, budget);
      ls, t := W.Then(s, [], s, W.EndScan);
      if t.pc.Dropping? {
        ls, t := W.Then(s, ls, t, W.Drop);
      }
    } else {
      AnswerStaysUnderway(s, req0, budget);
      ls, t := ScanIsRead(W.Next(s, W.Answer), req0, budget);
      assert ([W.Answer] + ls)[1..] == ls;
      ls := [W.Answer] + ls;
    }
  }

  /** In particular from the moment the flag was looked at. */
  lemma {:induction false} WholeScanIsRead(s: W.State) returns (ls: seq<W.Label>, t: W.State)
    requires W.Shape(s) && s.pc == W.Visit(0) && |s.req| == F.MAX_HANDLE
    ensures W.Shape(t) && W.IsRun(s, ls, t) && t.pc.Others? && W.Alone(ls)
    ensures F.Owed(t.req) == F.Owed(s.req)[F.Answered(F.Owed(s.req), s.count)..]
    ensures t.pending == (s.pending && !F.Clears(s.req, s.count))
  {
    ls, t := ScanIsRead(s, s.req, s.count);
  }
}
