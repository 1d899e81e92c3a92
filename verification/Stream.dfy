/** Running a state machine over a sequence of inputs while collecting what it puts out. */
module Stream {
  datatype Outcome<+S, +O> = Outcome(state: S, out: seq<O>)

  function Run<S, I, O>(step: (S, I) -> Outcome<S, O>, s: S, items: seq<I>): Outcome<S, O> {
    if items == [] then Outcome(s, []) else
    var last := |items| - 1;
    var r := Run(step, s, items[..last]);
    var t := step(r.state, items[last]);
    Outcome(t.state, r.out + t.out)
  }

  lemma {:induction false} Associate<T>(a: seq<T>, b: seq<T>, c: seq<T>)
    ensures (a + b) + c == a + (b + c)
  {
  }

  lemma {:induction false} RunOne<S, I, O>(step: (S, I) -> Outcome<S, O>, s: S, items: seq<I>, i: I)
    ensures var r := Run(step, s, items);
            var t := step(r.state, i);
            Run(step, s, items + [i]) == Outcome(t.state, r.out + t.out)
  {
    assert (items + [i])[..|items|] == items;
  }

  lemma {:induction false} RunSingle<S, I, O>(step: (S, I) -> Outcome<S, O>, s: S, i: I)
    ensures Run(step, s, [i]) == step(s, i)
  {
    assert [i][..0] == [];
    assert [] + step(s, i).out == step(s, i).out;
  }

  lemma {:induction false} RunConcat<S, I, O>(step: (S, I) -> Outcome<S, O>, s: S, a: seq<I>, b: seq<I>)
    ensures var r := Run(step, s, a);
            var t := Run(step, r.state, b);
            Run(step, s, a + b) == Outcome(t.state, r.out + t.out)
  {
    if b == [] {
      assert a + b == a;
    } else {
      var init, last := b[..|b| - 1], b[|b| - 1];
      var r := Run(step, s, a);
      var m := Run(step, r.state, init);
      RunConcat(step, s, a, init);
      RunOne(step, s, a + init, last);
      assert a + b == (a + init) + [last];
      Associate(r.out, m.out, step(m.state, last).out);
    }
  }

  /** What a stateless stage puts out for a run of inputs, in order. */
  function Gather<I, O>(f: I -> seq<O>, items: seq<I>): seq<O> {
    if items == [] then [] else Gather(f, items[..|items| - 1]) + f(items[|items| - 1])
  }

  lemma {:induction false} GatherOne<I, O>(f: I -> seq<O>, items: seq<I>, i: I)
    ensures Gather(f, items + [i]) == Gather(f, items) + f(i)
  {
    assert (items + [i])[..|items|] == items;
  }

  lemma {:induction false} GatherConcat<I, O>(f: I -> seq<O>, a: seq<I>, b: seq<I>)
    ensures Gather(f, a + b) == Gather(f, a) + Gather(f, b)
  {
    if b == [] {
      assert a + b == a;
    } else {
      var init, last := b[..|b| - 1], b[|b| - 1];
      GatherConcat(f, a, init);
      GatherOne(f, a + init, last);
      assert a + b == (a + init) + [last];
      Associate(Gather(f, a), Gather(f, init), f(last));
    }
  }

  /** A stage that puts out at most one item for each. */
  lemma {:induction false} GatherShort<I(!new), O>(f: I -> seq<O>, items: seq<I>)
    requires forall i :: |f(i)| <= 1
    ensures |Gather(f, items)| <= |items|
  {
    if items != [] {
      GatherShort(f, items[..|items| - 1]);
    }
  }

  ghost predicate Ascending(idx: seq<nat>) {
    forall j, k :: 0 <= j < k < |idx| ==> idx[j] < idx[k]
  }

  /** Output `out` comes from the items at positions `idx`, in order, one item each. */
  ghost predicate Picked<I, O>(f: I -> seq<O>, items: seq<I>, out: seq<O>, idx: seq<nat>) {
    && |idx| == |out| && Ascending(idx)
    && forall k :: 0 <= k < |idx| ==> idx[k] < |items| && f(items[idx[k]]) == [out[k]]
  }

  /** A stage that puts out at most one item for each picks its output from the items, in order, and skips no item that
      gives any. */
  lemma {:induction false} GatherPicks<I(!new), O>(f: I -> seq<O>, items: seq<I>) returns (idx: seq<nat>)
    requires forall i :: |f(i)| <= 1
    ensures Picked(f, items, Gather(f, items), idx)
    ensures forall p :: 0 <= p < |items| && f(items[p]) != [] ==> p in idx
  {
    if items == [] {
      idx := [];
    } else {
      var n, o := |items| - 1, f(items[|items| - 1]);
      var init := GatherPicks(f, items[..n]);
      idx := init + if o == [] then [] else [n];
      forall p | 0 <= p < |items| && f(items[p]) != [] ensures p in idx {
        if p < n {
          assert items[..n][p] == items[p] && p in init;
        } else {
          assert idx[|init|] == n;
        }
      }
      assert forall k :: 0 <= k < |init| ==> items[..n][init[k]] == items[init[k]];
    }
  }
}
