/** The unmatched writes of one byte, in program order: the view of the
    expected queue in which every operation of the matcher is simple. */
module Outstanding {
  import opened Platform
  import opened EventQueue
  import opened WriteMatcher

  ghost function Undone(q: seq<Ev>, a: int): seq<Ev> {
    if q == [] then []
    else (if !q[0].done && q[0].addr == a then [q[0]] else []) + Undone(q[1..], a)
  }

  ghost function Values(q: seq<Ev>): (r: seq<Byte>) {
    seq(|q|, k requires 0 <= k < |q| => q[k].val)
  }

  /** The values of the writes to a, in order. */
  ghost function Stream(ws: seq<Write>, a: int): seq<Byte> {
    if ws == [] then []
    else Stream(ws[..|ws| - 1], a) + (if ws[|ws| - 1].addr == a then [ws[|ws| - 1].val] else [])
  }

  lemma {:induction false} UndoneConcat(p: seq<Ev>, q: seq<Ev>, a: int)
    ensures Undone(p + q, a) == Undone(p, a) + Undone(q, a)
  {
    if p == [] {
      assert p + q == q;
    } else {
      assert (p + q)[1..] == p[1..] + q;
      UndoneConcat(p[1..], q, a);
    }
  }

  lemma {:induction false} UndoneAdvance(q: seq<Ev>, a: int)
    ensures Undone(Advance(q), a) == Undone(q, a)
  {
    if q != [] && q[0].done {
      UndoneAdvance(q[1..], a);
    }
  }

  lemma {:induction false} UndoneEntries(q: seq<Ev>, a: int)
    ensures forall e :: e in Undone(q, a) ==> e in q && !e.done && e.addr == a
  {
    if q != [] {
      UndoneEntries(q[1..], a);
    }
  }

  /** Matching the first unmatched write of a byte removes exactly the head
      of that byte's outstanding writes. */
  lemma {:induction false} UndoneMark(q: seq<Ev>, i: nat, a: int)
    requires i < |q| && !q[i].done
    requires forall k :: 0 <= k < i ==> q[k].done || q[k].addr != q[i].addr
    ensures q[i].addr != a ==> Undone(q[i := q[i].(done := true)], a) == Undone(q, a)
    ensures q[i].addr == a ==> Undone(q, a) == [q[i]] + Undone(q[i := q[i].(done := true)], a)
  {
    var q' := q[i := q[i].(done := true)];
    if i == 0 {
      assert q'[1..] == q[1..];
    } else {
      assert q'[1..] == q[1..][i - 1 := q[i].(done := true)];
      UndoneMark(q[1..], i - 1, a);
    }
  }

  /** No write to a byte is outstanding exactly when the search finds none. */
  lemma {:induction false} UndoneNone(q: seq<Ev>, a: int)
    ensures Undone(q, a) == [] <==> FirstPending(q, a) == |q|
  {
    if q != [] {
      UndoneNone(q[1..], a);
    }
  }

  lemma StreamAppend(ws: seq<Write>, w: Write, a: int)
    ensures Stream(ws + [w], a) == Stream(ws, a) + (if w.addr == a then [w.val] else [])
  {
    assert (ws + [w])[..|ws|] == ws;
  }

  lemma {:induction false} StreamConcat(p: seq<Write>, q: seq<Write>, a: int)
    ensures Stream(p + q, a) == Stream(p, a) + Stream(q, a)
  {
    if q == [] {
      assert p + q == p;
    } else {
      assert (p + q)[..|p + q| - 1] == p + q[..|q| - 1];
      StreamConcat(p, q[..|q| - 1], a);
    }
  }

  lemma ValuesConcat(p: seq<Ev>, q: seq<Ev>)
    ensures Values(p + q) == Values(p) + Values(q)
  {
  }
}
