/** The event ring of the readers: 2N slots used as a queue of at most N events. */
module EventRing {
  import opened InputEvents

  /** A logical position brought back into the first `n` slots. */
  ghost function Wrap(n: nat, i: nat): (k: nat) {
    if i < n then i else i - n
  }

  /** The i-th event counted from slot `start` in a ring of `n` slots. */
  ghost function At(mem: seq<InputEvent>, n: nat, start: nat, i: nat): InputEvent
    requires i < n <= |mem| && start < n
  {
    mem[Wrap(n, start + i)]
  }

  /** The `len` events that start at slot `start` of a ring of `n` slots. */
  ghost function Unread(mem: seq<InputEvent>, n: nat, start: nat, len: nat): (q: seq<InputEvent>)
    requires len <= n <= |mem| && (len > 0 ==> start < n)
    ensures |q| == len && forall i :: 0 <= i < len ==> q[i] == At(mem, n, start, i)
  {
    seq(len, i requires 0 <= i < len => At(mem, n, start, i))
  }

  /** Writing events right behind the queue, without touching it, appends them. */
  lemma {:induction false} Appended(before: seq<InputEvent>, after: seq<InputEvent>, n: nat, start: nat, len: nat,
        es: seq<InputEvent>)
    requires len + |es| <= n <= |before| == |after| && start < n
    requires forall i :: 0 <= i < len ==> At(after, n, start, i) == At(before, n, start, i)
    requires forall i :: len <= i < len + |es| ==> At(after, n, start, i) == es[i - len]
    ensures Unread(after, n, start, len + |es|) == Unread(before, n, start, len) + es
  {
  }

  /** Stepping the start forward drops the oldest event. */
  lemma {:induction false} Popped(mem: seq<InputEvent>, n: nat, start: nat, len: nat)
    requires 0 < len <= n <= |mem| && start < n
    ensures Unread(mem, n, Wrap(n, start + 1), len - 1) == Unread(mem, n, start, len)[1..]
  {
    var q := Unread(mem, n, start, len);
    var r := Unread(mem, n, Wrap(n, start + 1), len - 1);
    assert forall i :: 0 <= i < |r| ==> r[i] == q[1..][i];
  }

  class InputEventCircularReader {
    const capacity: nat
    const buffer: array<InputEvent>
    var head: nat
    var curr: nat
    var free: nat

    // Everything the kernel ever delivered, and everything `Next` ever stepped over.
    ghost var arrived: seq<InputEvent>
    ghost var consumed: seq<InputEvent>

    ghost predicate Shape()
      reads this
    {
      && buffer.Length == 2 * capacity
      && free <= capacity
      && (if capacity == 0 then curr == 0 else curr < capacity)
      && head <= capacity
      && (head == curr + capacity - free || head == curr - free || (head == capacity && curr == free - capacity))
    }

    /** The abstract queue: the unread events, oldest first. */
    ghost function Contents(): (q: seq<InputEvent>)
      requires Shape()
      reads this, buffer
    {
      Unread(buffer[..], capacity, curr, capacity - free)
    }

    /** Over every run: what came out, followed by what is still queued, is exactly what the kernel delivered. */
    ghost predicate Valid()
      reads this, buffer
    {
      Shape() && arrived == consumed + Contents()
    }

    constructor (numEvents: nat)
      ensures Valid() && capacity == numEvents && fresh(buffer)
      ensures Contents() == [] && arrived == [] && consumed == []
    {
      capacity := numEvents;
      buffer := new InputEvent[numEvents * 2];
      head, curr, free := 0, 0, numEvents;
      arrived, consumed := [], [];
    }

    /** A read appends exactly the events delivered; a failed or torn one leaves the queue as it was. */
    method Fill(k: KernelRead) returns (r: int)
      requires Valid()
      requires ReadFits(k, free)
      modifies this`head, this`free, this`arrived, buffer
      ensures Valid()
      ensures Contents() == old(Contents()) + Accepted(k)
      ensures arrived == old(arrived) + Accepted(k)
      ensures r == FillResult(k, old(free))
      ensures if old(free) == 0 then r == 0 && Contents() == old(Contents())
              else if k.Delivered? then r == |k.events| && Contents() == old(Contents()) + k.events
              else r == (if k.Failed? then -k.errno else -22) && Contents() == old(Contents())
    {
      if free == 0 {
        return 0;
      }
      if k.Failed? {
        return -k.errno;
      }
      if k.Torn? {
        KernelWrite(k.scribbled);
        return -EINVAL;
      }
      ghost var q := Contents();
      KernelWrite(k.events);
      Advance(k.events);
      arrived := arrived + k.events;
      assert (consumed + q) + k.events == consumed + (q + k.events);
      return |k.events|;
    }

    /** Moves `head` past the events just written and copies what ran over the logical end back to the front. */
    method Advance(events: seq<InputEvent>)
      requires Shape() && |events| <= free && head + |events| <= buffer.Length
      requires forall i :: 0 <= i < |events| ==> buffer[head + i] == events[i]
      modifies this`head, this`free, buffer
      ensures Shape() && free == old(free) - |events|
      ensures Contents() == old(Contents()) + events
    {
      var n := |events|;
      if n > 0 {
        ghost var before, len, from := buffer[..], capacity - free, head;
        head, free := head + n, free - n;
        if head > capacity {
          var s := head - capacity;
          forall i | 0 <= i < s { buffer[i] := buffer[capacity + i]; }
          head := s;
        }
        Appended(before, buffer[..], capacity, curr, len, events);
      }
    }

    /** The kernel's copy into the buffer, linearly from `head`. It stays inside the 2N slots and off every unread event. */
    method KernelWrite(es: seq<InputEvent>)
      requires Shape() && |es| <= free
      modifies buffer
      ensures head + |es| <= buffer.Length
      ensures forall i :: 0 <= i < |es| ==> buffer[head + i] == es[i]
      ensures Contents() == old(Contents())
    {
      forall i | 0 <= i < |es| { buffer[head + i] := es[i]; }
    }

    method ReadEvent() returns (available: bool, e: InputEvent)
      requires Valid()
      ensures available <==> Contents() != []
      ensures available ==> e == Contents()[0]
    {
      available := capacity - free != 0;
      e := if available then buffer[curr] else InputEvent(0, 0, 0);
    }

    method Next()
      requires Valid() && Contents() != []
      modifies this`curr, this`free, this`consumed
      ensures Valid()
      ensures Contents() == old(Contents())[1..]
      ensures consumed == old(consumed) + [old(Contents())[0]]
    {
      ghost var q := Contents();
      assert consumed + q == (consumed + [q[0]]) + q[1..];
      Forward();
      consumed := consumed + [q[0]];
    }

    method Forward()
      requires Shape() && Contents() != []
      modifies this`curr, this`free
      ensures Shape() && Contents() == old(Contents())[1..]
    {
      Popped(buffer[..], capacity, curr, capacity - free);
      curr, free := curr + 1, free + 1;
      if curr >= capacity {
        curr := 0;
      }
    }
  }
}
