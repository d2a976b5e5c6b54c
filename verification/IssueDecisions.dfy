/** What the checker decides at each issue, from what has happened: its three
    marks are a history of its notes, and a turn is decided by them, by where
    the reference is, and by whether a vector waits. */
module IssueDecisions {
  import opened Platform
  import opened Issues

  // ---- The marks as a history ----

  /** An accepted issue's instruction has not been run yet. */
  predicate Pending(notes: seq<Note>) {
    if notes == [] then false
    else
      match notes[|notes| - 1]
      case Accepted(_, _, _, _) => true
      case Stepped(_, _, _) => false
      case Restarted => false
      case WasReset => false
      case _ => Pending(notes[..|notes| - 1])
  }

  /** The instruction run last faulted, and no issue has been squashed for
      that or accepted since. */
  predicate Unpaid(notes: seq<Note>) {
    if notes == [] then false
    else
      match notes[|notes| - 1]
      case Stepped(fault, _, _) => fault
      case Accepted(_, _, _, _) => false
      case Squashed(_) => false
      case Restarted => false
      case WasReset => false
      case _ => Unpaid(notes[..|notes| - 1])
  }

  /** z486 has cut a pending instruction since one was last run or given up;
      resets or not. */
  predicate CutSince(notes: seq<Note>) {
    if notes == [] then false
    else
      var before := notes[..|notes| - 1];
      match notes[|notes| - 1]
      case CutCame => Pending(before) || CutSince(before)
      case Stepped(_, _, _) => false
      case Restarted => false
      case _ => CutSince(before)
  }

  ghost predicate Shows<R>(h: Host<R>, notes: seq<Note>) {
    h.haveCur == Pending(notes) && h.squashOk == Unpaid(notes) && h.restarted == CutSince(notes)
  }

  lemma Push(notes: seq<Note>, x: Note)
    ensures Pending(notes + [x])
         == (x.Accepted? || (!x.Stepped? && !x.Restarted? && !x.WasReset? && Pending(notes)))
    ensures Unpaid(notes + [x])
         == if x.Stepped? then x.fault
            else !x.Accepted? && !x.Squashed? && !x.Restarted? && !x.WasReset? && Unpaid(notes)
    ensures CutSince(notes + [x])
         == ((x.CutCame? && Pending(notes)) || (!x.Stepped? && !x.Restarted? && CutSince(notes)))
  {
    assert (notes + [x])[..|notes|] == notes;
  }

  lemma {:induction false} PushLost(notes: seq<Note>, lost: seq<Note>)
    requires forall n :: n in lost ==> n.LostIssue? || n.LostVector? || n.LostPending?
    ensures Pending(notes + lost) == Pending(notes) && Unpaid(notes + lost) == Unpaid(notes)
    ensures CutSince(notes + lost) == CutSince(notes)
    decreases |lost|
  {
    hide Pending, Unpaid, CutSince;
    if lost == [] {
      assert notes + lost == notes;
    } else {
      var x, before := lost[|lost| - 1], lost[..|lost| - 1];
      assert x in lost && notes + lost == (notes + before) + [x];
      PushLost(notes, before);
      Push(notes + before, x);
    }
  }

  lemma ArriveShows<R>(h: Host<R>, m: seq<Note>, a: Arrival<R>)
    requires Shows(h, m)
    ensures Shows(Arrive(h, a), m + Noted(h, a))
  {
    hide Pending, Unpaid, CutSince, Dropped;
    assert m + [] == m;
    if a.Cut? {
      Push(m, CutCame);
    } else if a.Reset? {
      OnlyLost(h);
      PushLost(m, Dropped(h));
      Push(m + Dropped(h), WasReset);
      assert m + Noted(h, a) == (m + Dropped(h)) + [WasReset];
    }
  }

  lemma OnlyLost<R>(h: Host<R>)
    ensures forall n :: n in Dropped(h) ==> n.LostIssue? || n.LostVector? || n.LostPending?
  {
  }

  lemma CutShows<R>(p: Reference<R>, h: Host<R>, m: seq<Note>)
    requires Shows(h, m)
    ensures var t := CutShort(p, h); Shows(t.h, m + t.notes)
  {
    hide Pending, Unpaid, CutSince;
    assert m + [] == m;
    Push(m, Restarted);
  }

  lemma RunShows<R>(p: Reference<R>, h: Host<R>, i: Issue, m: seq<Note>)
    requires Shows(h, m)
    ensures var t := RunCurrent(p, h, i); t.what != Diverged ==> Shows(t.h, m + t.notes)
  {
    hide Pending, Unpaid, CutSince;
    assert m + [] == m;
    var t := RunCurrent(p, h, i);
    if t.notes != [] {
      assert t.notes == [t.notes[0]];
      Push(m, t.notes[0]);
    }
  }

  lemma VectorShows<R>(p: Reference<R>, h: Host<R>, i: Issue, m: seq<Note>)
    requires Shows(h, m)
    ensures var t := TakeVector(p, h, i); t.what != Diverged ==> Shows(t.h, m + t.notes)
  {
    hide Pending, Unpaid, CutSince;
    assert m + [] == m;
    if h.vectors != [] {
      Push(m, Interrupted(h.vectors[0]));
    }
  }

  lemma FetchShows<R>(p: Reference<R>, h: Host<R>, i: Issue, m: seq<Note>)
    requires Shows(h, m)
    ensures var t := FetchFaults(p, h, i); t.what != Diverged ==> Shows(t.h, m + t.notes)
  {
    hide Pending, Unpaid, CutSince;
    assert m + [] == m;
    Push(m, FetchFault);
  }

  lemma AcceptShows<R>(p: Reference<R>, h: Host<R>, i: Issue, m: seq<Note>)
    requires Whole(h) && h.issues != [] && h.issues[0] == i && Shows(h, m)
    ensures var t := Accept(p, h, i); t.what != Diverged ==> Shows(t.h, m + t.notes)
  {
    hide Pending, Unpaid, CutSince, CheckFrom;
    Push(m, Accepted(i, p.cs(h.r), p.eip(h.r), Registers(p, h.r)));
  }

  lemma DisposeShows<R>(p: Reference<R>, h: Host<R>, i: Issue, m: seq<Note>)
    requires Whole(h) && h.issues != [] && h.issues[0] == i && Shows(h, m)
    ensures var t := Dispose(p, h, i); t.what != Diverged ==> Shows(t.h, m + t.notes)
  {
    hide Pending, Unpaid, CutSince, Accept, FetchFaults, SamePc;
    if !SamePc(p, h.r, i) && h.squashOk {
      Push(m, Squashed(i));
    } else {
      FetchShows(p, h, i, m);
      var f := FetchFaults(p, h, i);
      if f.what == GoOn {
        AcceptShows(p, f.h, i, m + f.notes);
        Assoc(m, f.notes, Accept(p, f.h, i).notes);
      }
    }
  }

  lemma Assoc<T>(a: seq<T>, b: seq<T>, c: seq<T>)
    ensures (a + b) + c == a + (b + c)
  {
  }

  lemma TakeOneShows<R>(p: Reference<R>, h: Host<R>, m: seq<Note>)
    requires Whole(h) && h.issues != [] && Shows(h, m)
    ensures var t := TakeOne(p, h); t.what != Diverged ==> Shows(t.h, m + t.notes)
  {
    hide Shows, RunCurrent, TakeVector, Dispose, CutShort;
    var i := h.issues[0];
    var a := CutShort(p, h);
    CutShows(p, h, m);
    var b := RunCurrent(p, a.h, i);
    RunShows(p, a.h, i, m + a.notes);
    Assoc(m, a.notes, b.notes);
    if b.what == GoOn {
      var c := TakeVector(p, b.h, i);
      VectorShows(p, b.h, i, m + (a.notes + b.notes));
      Assoc(m, a.notes + b.notes, c.notes);
      if c.what == GoOn {
        var d := Dispose(p, c.h, i);
        DisposeShows(p, c.h, i, m + (a.notes + b.notes + c.notes));
        Assoc(m, a.notes + b.notes + c.notes, d.notes);
      }
    }
  }

  lemma {:induction false} ProcessShows<R>(p: Reference<R>, h: Host<R>, m: seq<Note>)
    requires Whole(h) && Shows(h, m)
    ensures var t := Process(p, h); t.what != Diverged ==> Shows(t.h, m + t.notes)
    decreases |h.issues|
  {
    hide Shows, TakeOne;
    if h.issues == [] {
      assert m + [] == m;
    } else {
      TakeOneShows(p, h, m);
      var t := TakeOne(p, h);
      if t.what == GoOn {
        ProcessShows(p, t.h, m + t.notes);
        Assoc(m, t.notes, Process(p, t.h).notes);
      }
    }
  }

  /** Over every run without a divergence the three marks are what the notes
      say: whether an instruction is pending, whether a fault may still squash
      an issue, whether the pending instruction was cut. */
  lemma {:induction false} MarksAreHistory<R>(p: Reference<R>, h: Host<R>, arrivals: seq<Arrival<R>>, m: seq<Note>)
    requires Whole(h) && Shows(h, m)
    ensures var t := Follow(p, h, arrivals); t.what != Diverged ==> Shows(t.h, m + t.notes)
    decreases arrivals
  {
    hide Shows, Process, Noted;
    if arrivals == [] {
      assert m + [] == m;
    } else if Proper(p, h, arrivals[0]) {
      var h1, d := Arrive(h, arrivals[0]), Noted(h, arrivals[0]);
      ArriveShows(h, m, arrivals[0]);
      ProcessShows(p, h1, m + d);
      var t := Process(p, h1);
      if t.what != Diverged {
        Assoc(m, d, t.notes);
        MarksAreHistory(p, t.h, arrivals[1..], m + (d + t.notes));
        Assoc(m, d + t.notes, Follow(p, t.h, arrivals[1..]).notes);
      }
    }
  }

  // ---- One turn ----

  /** The reference is where an issue says. */
  predicate At<R>(p: Reference<R>, r: R, i: Issue) {
    p.cs(r) == i.cs && p.eip(r) == i.eip
  }

  /** What became of the pending instruction: nothing was pending; it had been
      cut, is no repeated string, and is given up; or it was run, a repeated
      string only to the issue's count if a vector waits, and the issue's flags
      taken. */
  ghost predicate Begins<R>(p: Reference<R>, h: Host<R>, i: Issue, notes: seq<Note>, r: R) {
    if !h.haveCur then notes == [] && r == h.r
    else if h.restarted && !p.atRep(h.r) then notes == [Restarted] && r == h.r
    else
      var cut := h.vectors != [] && p.atRep(h.r);
      var s := if cut then p.stepTo(h.r, i.ecx) else p.step(h.r);
      s.Done? && r == p.adopt(s.r, i.eflags) && notes == [Stepped(p.faulted(s.r), i, cut)]
  }

  /** A vector is taken exactly if one waits and the reference is not there. */
  ghost predicate Interrupts<R>(p: Reference<R>, vectors: seq<Byte>, r: R, i: Issue, notes: seq<Note>, r': R) {
    if At(p, r, i) || vectors == [] then notes == [] && r' == r
    else
      var s := p.interrupt(r, vectors[0]);
      s.Done? && r' == s.r && notes == [Interrupted(vectors[0])]
  }

  /** At the reference's place an issue is accepted. Elsewhere it is squashed
      if a fault is unpaid; if none is, the next fetch has to fault on its way
      there. */
  ghost predicate Ends<R>(p: Reference<R>, unpaid: bool, r: R, i: Issue, notes: seq<Note>, r': R) {
    var accepted := Accepted(i, i.cs, i.eip, Registers(p, r'));
    if At(p, r, i) then r' == r && notes == [accepted]
    else if unpaid then r' == r && notes == [Squashed(i)]
    else
      var s := p.step(r);
      && !s.Error? && r' == s.r && p.faulted(r') && At(p, r', i)
      && notes == if s.Done? then [FetchFault, accepted] else [accepted]
  }

  /** Whether a fault is unpaid once the pending instruction is dealt with. */
  function UnpaidAfter(was: bool, begun: seq<Note>): bool {
    if begun == [] then was else begun[0].Stepped? && begun[0].fault
  }

  /** A turn by these rules, to its end. */
  datatype Course<R> = Course(begun: seq<Note>, r1: R, taken: seq<Note>, r2: R, done: seq<Note>, r3: R)

  /** The vectors that still wait: the oldest is gone if one was taken. */
  function Left(vectors: seq<Byte>, taken: seq<Note>): seq<Byte> {
    if taken == [] || vectors == [] then vectors else vectors[1..]
  }

  /** A course that the rules allow, with registers that have not differed too
      long if the issue is accepted. */
  ghost predicate Allowed<R>(p: Reference<R>, h: Host<R>, i: Issue, c: Course<R>)
    requires Whole(h) && |i.gpr| == REGISTERS
  {
    && Begins(p, h, i, c.begun, c.r1) && Interrupts(p, h.vectors, c.r1, i, c.taken, c.r2)
    && Ends(p, UnpaidAfter(h.squashOk, c.begun), c.r2, i, c.done, c.r3)
    && (c.done != [Squashed(i)] ==> CheckFrom(i.gpr, Registers(p, c.r3), h.miss, 0).1)
  }

  /** The pending instruction is to be run and has to wait for data. */
  predicate MustWait<R>(p: Reference<R>, h: Host<R>, i: Issue) {
    && h.haveCur && !(h.restarted && !p.atRep(h.r))
    && (if h.vectors != [] && p.atRep(h.r) then p.stepTo(h.r, i.ecx) else p.step(h.r)).Stalled?
  }

  /** A turn goes on exactly by a course that the rules allow, and that is what
      it does; it waits exactly when the pending instruction has to; in every
      other case a divergence is reported. */
  lemma TurnDecides<R(!new)>(p: Reference<R>, h: Host<R>)
    requires Whole(h) && h.issues != []
    ensures var i, t := h.issues[0], TakeOne(p, h);
            && (t.what == Wait <==> MustWait(p, h, i))
            && (t.what == GoOn <==> exists c :: Allowed(p, h, i, c))
            && forall c :: Allowed(p, h, i, c) ==>
                 && t.notes == c.begun + c.taken + c.done && t.h.r == c.r3
                 && t.h.vectors == Left(h.vectors, c.taken)
  {
    hide Allowed, CutShort, RunCurrent, TakeVector, Dispose, MustWait;
    var i, t := h.issues[0], TakeOne(p, h);
    var a := CutShort(p, h);
    var b := RunCurrent(p, a.h, i);
    WaitIs(p, h, i);
    forall c | Allowed(p, h, i, c)
      ensures t.what == GoOn && t.notes == c.begun + c.taken + c.done && t.h.r == c.r3
      ensures t.h.vectors == Left(h.vectors, c.taken)
    {
      Determined(p, h, c);
    }
    if t.what == GoOn {
      var v := TakeVector(p, b.h, i);
      var d := Dispose(p, v.h, i);
      assert Allowed(p, h, i, Course(a.notes + b.notes, b.h.r, v.notes, v.h.r, d.notes, d.h.r)) by {
        Allows(p, h);
      }
    }
  }

  lemma WaitIs<R>(p: Reference<R>, h: Host<R>, i: Issue)
    ensures RunCurrent(p, CutShort(p, h).h, i).what == Wait <==> MustWait(p, h, i)
  {
  }

  /** The course that a turn takes is allowed. */
  lemma Allows<R>(p: Reference<R>, h: Host<R>)
    requires Whole(h) && h.issues != [] && TakeOne(p, h).what == GoOn
    ensures var i := h.issues[0];
            var a := CutShort(p, h);
            var b := RunCurrent(p, a.h, i);
            var v := TakeVector(p, b.h, i);
            var d := Dispose(p, v.h, i);
            Allowed(p, h, i, Course(a.notes + b.notes, b.h.r, v.notes, v.h.r, d.notes, d.h.r))
  {
    hide CutShort, RunCurrent, TakeVector, Dispose, Begins, Interrupts, Ends, CheckFrom, Registers;
    var i := h.issues[0];
    var a := CutShort(p, h);
    var b := RunCurrent(p, a.h, i);
    var v := TakeVector(p, b.h, i);
    BeginningIs(p, h, i);
    VectorIs(p, b.h, i);
    EndIs(p, v.h, i);
  }

  /** A turn takes the course allowed. */
  lemma Determined<R>(p: Reference<R>, h: Host<R>, c: Course<R>)
    requires Whole(h) && h.issues != [] && Allowed(p, h, h.issues[0], c)
    ensures var t := TakeOne(p, h);
            && t.what == GoOn && t.notes == c.begun + c.taken + c.done && t.h.r == c.r3
            && t.h.vectors == Left(h.vectors, c.taken)
  {
    hide CutShort, RunCurrent, TakeVector, Dispose, Begins, Interrupts, Ends, CheckFrom, Registers;
    var i := h.issues[0];
    var a := CutShort(p, h);
    var b := RunCurrent(p, a.h, i);
    var v := TakeVector(p, b.h, i);
    BeginningOnly(p, h, i, c.begun, c.r1);
    BeginningIs(p, h, i);
    VectorOnly(p, b.h, i, c.taken, c.r2);
    VectorIs(p, b.h, i);
    EndOnly(p, v.h, i, c.done, c.r3);
    EndIs(p, v.h, i);
  }

  lemma BeginningIs<R>(p: Reference<R>, h: Host<R>, i: Issue)
    ensures var a := CutShort(p, h);
            var b := RunCurrent(p, a.h, i);
            b.what == GoOn ==>
              && Begins(p, h, i, a.notes + b.notes, b.h.r) && b.h.vectors == h.vectors && Keeps(h, b.h)
              && b.h.squashOk == UnpaidAfter(h.squashOk, a.notes + b.notes)
  {
    var a := CutShort(p, h);
    var b := RunCurrent(p, a.h, i);
    assert [] + b.notes == b.notes && a.notes + [] == a.notes;
  }

  lemma BeginningOnly<R>(p: Reference<R>, h: Host<R>, i: Issue, notes: seq<Note>, r: R)
    requires Begins(p, h, i, notes, r)
    ensures var a := CutShort(p, h);
            var b := RunCurrent(p, a.h, i);
            b.what == GoOn && notes == a.notes + b.notes && r == b.h.r
  {
    var a := CutShort(p, h);
    var b := RunCurrent(p, a.h, i);
    assert [] + b.notes == b.notes && a.notes + [] == a.notes;
  }

  lemma VectorIs<R>(p: Reference<R>, h: Host<R>, i: Issue)
    ensures var v := TakeVector(p, h, i);
            v.what == GoOn ==>
              && Interrupts(p, h.vectors, h.r, i, v.notes, v.h.r) && v.h.squashOk == h.squashOk && Keeps(h, v.h)
              && v.h.vectors == Left(h.vectors, v.notes)
  {
  }

  lemma VectorOnly<R>(p: Reference<R>, h: Host<R>, i: Issue, notes: seq<Note>, r: R)
    requires Interrupts(p, h.vectors, h.r, i, notes, r)
    ensures var v := TakeVector(p, h, i); v.what == GoOn && notes == v.notes && r == v.h.r
  {
  }

  lemma EndIs<R>(p: Reference<R>, h: Host<R>, i: Issue)
    requires Whole(h) && h.issues != [] && h.issues[0] == i
    ensures var d := Dispose(p, h, i);
            d.what == GoOn ==>
              && Ends(p, h.squashOk, h.r, i, d.notes, d.h.r) && d.h.vectors == h.vectors
              && (d.notes != [Squashed(i)] ==> CheckFrom(i.gpr, Registers(p, d.h.r), h.miss, 0).1)
  {
    hide CheckFrom;
    assert forall n: seq<Note> :: [] + n == n;
  }

  lemma EndOnly<R>(p: Reference<R>, h: Host<R>, i: Issue, notes: seq<Note>, r: R)
    requires Whole(h) && h.issues != [] && h.issues[0] == i && Ends(p, h.squashOk, h.r, i, notes, r)
    requires notes != [Squashed(i)] ==> CheckFrom(i.gpr, Registers(p, r), h.miss, 0).1
    ensures var d := Dispose(p, h, i); d.what == GoOn && d.notes == notes && d.h.r == r
  {
    hide CheckFrom;
    assert forall n: seq<Note> :: [] + n == n;
  }
}
