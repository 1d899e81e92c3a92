/** Time stamps made up one delay apart, counting back from a real one. */
module BackDating {
  /** Each stamp is no earlier than the one before it. */
  ghost predicate Sorted(s: seq<int>) {
    |s| < 2 || (s[|s| - 2] <= s[|s| - 1] && Sorted(s[..|s| - 1]))
  }

  /** And hence than any before it. */
  lemma {:induction false} SortedAt(s: seq<int>)
    ensures Sorted(s) <==> forall i, j :: 0 <= i < j < |s| ==> s[i] <= s[j]
  {
    if |s| >= 2 {
      var init := s[..|s| - 1];
      SortedAt(init);
      if Sorted(s) {
        forall i, j | 0 <= i < j < |s| ensures s[i] <= s[j] {
          assert s[i] == init[i] && (i == |s| - 2 || init[i] <= init[|s| - 2]);
        }
      }
    }
  }

  lemma {:induction false} SortedAppend(s: seq<int>, t: seq<int>)
    requires Sorted(s) && Sorted(t) && (s != [] && t != [] ==> s[|s| - 1] <= t[0])
    ensures Sorted(s + t)
  {
    SortedAt(s);
    SortedAt(t);
    SortedAt(s + t);
    if s != [] && t != [] {
      forall i, j | 0 <= i < |s| <= j < |s + t| ensures (s + t)[i] <= (s + t)[j] {
        assert s[i] <= s[|s| - 1] <= t[0] <= t[j - |s|];
      }
    }
  }

  lemma {:induction false} SortedCut(s: seq<int>, budget: nat)
    requires Sorted(s)
    ensures Sorted(Cut(s, budget))
  {
    SortedAt(s);
    SortedAt(Cut(s, budget));
  }

  /** How many whole delays fit into `d`. */
  function Whole(d: int, delay: int): (n: nat)
    requires delay > 0
    decreases d
  {
    if d < delay then 0 else 1 + Whole(d - delay, delay)
  }

  /** That is the quotient, exactly. */
  lemma {:induction false} WholeIsFloor(d: int, delay: int)
    requires delay > 0
    ensures Whole(d, delay) == if d < 0 then 0 else d / delay
    ensures d >= 0 ==> Whole(d, delay) * delay <= d < Whole(d, delay) * delay + delay
    ensures d >= 0 ==> d - Whole(d, delay) * delay == d % delay
    decreases d
  {
    if d >= delay {
      WholeIsFloor(d - delay, delay);
      var n := Whole(d - delay, delay);
      assert (n + 1) * delay == n * delay + delay;
      Multiple(d / delay, delay, d);
      Unique(n + 1, d / delay, delay, d);
    }
  }

  lemma {:induction false} Unique(m: int, n: int, delay: int, d: int)
    requires delay > 0 && m * delay <= d < m * delay + delay && n * delay <= d < n * delay + delay
    ensures m == n
  {
    assert (m + 1) * delay == m * delay + delay;
    assert (n + 1) * delay == n * delay + delay;
    if m < n {
      Order(n, 0, n - m - 1, delay);
    } else if n < m {
      Order(m, 0, m - n - 1, delay);
    }
  }

  /** `n` time stamps one delay apart, the last one delay before `time`. */
  function Fabricated(time: int, delay: int, n: nat): (ts: seq<int>)
    ensures |ts| == n
    decreases n
  {
    if n == 0 then [] else Fabricated(time - delay, delay, n - 1) + [time - delay]
  }

  lemma {:induction false} FabricatedAt(time: int, delay: int, n: nat, j: nat)
    requires j < n
    ensures Fabricated(time, delay, n)[j] == time - (n - j) * delay
    decreases n
  {
    if j < n - 1 {
      FabricatedAt(time - delay, delay, n - 1, j);
      assert (n - 1 - j) * delay + delay == (n - j) * delay;
    }
  }

  /** Consecutive stamps are exactly one delay apart. */
  ghost predicate Evenly(s: seq<int>, delay: int) {
    forall j, k :: 0 <= j < k < |s| && k == j + 1 ==> s[k] - s[j] == delay
  }

  /** And then `time` itself. */
  function Filled(time: int, delay: int, n: nat): (ts: seq<int>)
    ensures |ts| == n + 1
  {
    Fabricated(time, delay, n) + [time]
  }

  lemma {:induction false} FilledGoesOn(time: int, delay: int, n: nat)
    requires delay > 0
    ensures var ts := Filled(time, delay, n);
            && Sorted(ts) && ts[n] == time
            && Evenly(ts, delay) && forall i :: 0 <= i <= n ==> ts[0] <= ts[i] <= time
    decreases n
  {
    var ts := Filled(time, delay, n);
    if n > 0 {
      var init := Filled(time - delay, delay, n - 1);
      FilledGoesOn(time - delay, delay, n - 1);
      assert ts == init + [time] && ts[..n] == init;
      assert forall i :: 0 <= i < n ==> ts[i] == init[i];
    }
  }

  lemma {:induction false} FilledStarts(time: int, delay: int, n: nat)
    ensures Filled(time, delay, n)[0] == time - n * delay
  {
    if n > 0 {
      FabricatedAt(time, delay, n, 0);
    }
  }

  /** Stamp by stamp. */
  lemma {:induction false} FilledAt(time: int, delay: int, n: nat, i: nat)
    requires i <= n
    ensures Filled(time, delay, n)[i] == time - (n - i) * delay
  {
    if i < n {
      FabricatedAt(time, delay, n, i);
    }
  }

  /** They start `n` delays back, go on one delay at a time, and end at `time`. */
  lemma {:induction false} FilledLies(time: int, delay: int, n: nat)
    requires delay > 0
    ensures var ts := Filled(time, delay, n);
            && Sorted(ts) && ts[0] == time - n * delay && ts[n] == time
            && Evenly(ts, delay) && forall i :: 0 <= i <= n ==> ts[0] <= ts[i] <= time
  {
    FilledStarts(time, delay, n);
    FilledGoesOn(time, delay, n);
  }

  function Cut(ts: seq<int>, budget: nat): (r: seq<int>) { if budget < |ts| then ts[..budget] else ts }

  lemma {:induction false} Multiple(n: int, delay: int, d: int)
    requires delay > 0 && n == d / delay
    ensures n * delay <= d < n * delay + delay && d - n * delay == d % delay
  {
  }

  lemma {:induction false} Order(n: int, i: int, j: int, delay: int)
    requires delay > 0 && i <= j
    ensures (n - j) * delay <= (n - i) * delay
  {
    assert (n - i) * delay - (n - j) * delay == (j - i) * delay;
  }

  /** From position `from` on, consecutive stamps are at most `bound` apart. */
  ghost predicate StepsWithin(s: seq<int>, from: nat, bound: int) {
    forall j, k :: from <= j < k < |s| && k == j + 1 ==> s[k] - s[j] <= bound
  }

  /** What follows within `bound`, and goes on in such steps, continues in such steps. */
  lemma {:induction false} StepsJoin(before: seq<int>, out: seq<int>, bound: int)
    requires before != [] && StepsWithin(out, 0, bound) && (out != [] ==> out[0] - before[|before| - 1] <= bound)
    ensures StepsWithin(before + out, |before| - 1, bound)
  {
    var all := before + out;
    forall j, k | |before| - 1 <= j < k < |all| && k == j + 1 ensures all[k] - all[j] <= bound {
      assert all[k] == out[k - |before|];
      if j >= |before| {
        assert all[j] == out[j - |before|];
      }
    }
  }

  lemma {:induction false} EvenSteps(s: seq<int>, delay: int, bound: int, budget: nat)
    requires Evenly(s, delay) && delay <= bound
    ensures Evenly(Cut(s, budget), delay) && StepsWithin(Cut(s, budget), 0, bound)
  {
    assert forall i :: 0 <= i < |Cut(s, budget)| ==> Cut(s, budget)[i] == s[i];
  }

  /** The most delays that fit. */
  lemma {:induction false} AtMost(m: int, delay: int, d: int)
    requires delay > 0 && d >= 0
    ensures m * delay <= d <==> m <= Whole(d, delay)
  {
    var q := Whole(d, delay);
    WholeIsFloor(d, delay);
    assert (q + 1) * delay == q * delay + delay;
    if m > q {
      Order(m, 0, m - q - 1, delay);
    } else {
      Order(q, 0, q - m, delay);
    }
  }

  /** Appending keeps a sorted log sorted exactly when the first new stamp is not before the last old one. */
  lemma {:induction false} SortedJoin(s: seq<int>, t: seq<int>)
    requires Sorted(s) && Sorted(t) && s != [] && t != []
    ensures Sorted(s + t) <==> s[|s| - 1] <= t[0]
  {
    if s[|s| - 1] <= t[0] {
      SortedAppend(s, t);
    } else {
      SortedAt(s + t);
      assert (s + t)[|s| - 1] == s[|s| - 1] && (s + t)[|s|] == t[0];
    }
  }

  /** Clock readings never run backwards, and none is negative. */
  ghost predicate Monotone(clock: nat -> int) {
    (forall i :: clock(i) >= 0) && forall i, j :: 0 <= i <= j ==> clock(i) <= clock(j)
  }

  /** The latest of the first `n` readings. */
  function Latest(clock: nat -> int, n: nat): int { if n == 0 then 0 else clock(n - 1) }

  /** An event as far as its order matters: which sensor, and when. */
  datatype Stamp = Stamp(sensor: int, time: int)
}
