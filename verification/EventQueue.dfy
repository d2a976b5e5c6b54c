/** The event queues: an array with a head, a tail and in-place updates. */
module EventQueue {
  import opened Platform

  /** One byte written (or read): `grp` is the instruction's number, `done`
      is set when the other side has performed the write too, `silent` marks
      a write of the byte's current value, `fpu` an x87 store. */
  datatype Ev = Ev(addr: int, val: Byte, done: bool, silent: bool, fpu: bool, grp: nat)

  const NO_EVENT: Ev := Ev(0, 0, false, false, false, 0)
  const FIRST_CAPACITY: nat := 4096

  class Queue {
    var v: array<Ev>
    var head: nat
    var tail: nat

    ghost predicate Valid()
      reads this
    {
      head <= tail <= v.Length
    }

    ghost function Contents(): seq<Ev>
      reads this, v
      requires Valid()
    {
      v[head..tail]
    }

    constructor ()
      ensures Valid() && fresh(v) && Contents() == []
    {
      v := new Ev[0];
      head, tail := 0, 0;
    }

    /** Appends e; a full array is first compacted to its start and, when
        nothing was consumed, replaced by one of twice the capacity. */
    method Push(e: Ev)
      requires Valid()
      modifies this, v
      ensures Valid() && (v == old(v) || fresh(v))
      ensures Contents() == old(Contents()) + [e]
    {
      if tail == v.Length {
        if head > 0 {
          Compact();
        }
        if tail == v.Length {
          Grow();
        }
      }
      v[tail] := e;
      tail := tail + 1;
    }

    method Compact()
      requires Valid()
      modifies this, v
      ensures Valid() && v == old(v) && head == 0 && tail == old(tail) - old(head)
      ensures Contents() == old(Contents())
    {
      var n := tail - head;
      forall k | 0 <= k < n {
        v[k] := v[head + k];
      }
      head, tail := 0, n;
    }

    method Grow()
      requires Valid() && head == 0 && tail == v.Length
      modifies this
      ensures Valid() && fresh(v) && head == 0 && tail == old(tail) && tail < v.Length
      ensures Contents() == old(Contents())
    {
      var bigger := new Ev[if v.Length > 0 then 2 * v.Length else FIRST_CAPACITY](_ => NO_EVENT);
      forall k | 0 <= k < v.Length {
        bigger[k] := v[k];
      }
      v := bigger;
    }
  }
}
