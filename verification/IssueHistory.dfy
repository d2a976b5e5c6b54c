/** What following the issues makes the reference do, as a history: which
    handlers it enters, which counts and flags it is given, in what order; and
    the register check over a run. */
module IssueHistory {
  import opened Platform
  import opened Issues

  // ---- What the reference was made to do ----

  /** The operations behind a note. */
  function Behind(n: Note): seq<Op> {
    match n
    case Stepped(_, next, cut) => [if cut then UpTo(next.ecx) else Instruction, FlagsFrom(next.eflags)]
    case Interrupted(v) => [Handler(v)]
    case FetchFault => [Instruction]
    case _ => []
  }

  function Ops(notes: seq<Note>): seq<Op> {
    if notes == [] then [] else Behind(notes[0]) + Ops(notes[1..])
  }

  /** The vectors delivered or dropped, and the issues done with, in order. */
  function Vectors(notes: seq<Note>): seq<Byte> {
    if notes == [] then []
    else (if notes[0].Interrupted? || notes[0].LostVector? then [notes[0].v] else []) + Vectors(notes[1..])
  }

  function Disposed(notes: seq<Note>): seq<Issue> {
    if notes == [] then []
    else
      (if notes[0].Accepted? || notes[0].Squashed? || notes[0].LostIssue? then [notes[0].i] else [])
      + Disposed(notes[1..])
  }

  /** Every instruction run was run for the issue that was done with next. */
  ghost predicate Paired(notes: seq<Note>) {
    forall k :: 0 <= k < |notes| && notes[k].Stepped? ==>
      Disposed(notes[k + 1..]) != [] && Disposed(notes[k + 1..])[0] == notes[k].next
  }

  lemma {:induction false} TraceConcat(a: seq<Note>, b: seq<Note>)
    ensures Ops(a + b) == Ops(a) + Ops(b) && Vectors(a + b) == Vectors(a) + Vectors(b)
    ensures Disposed(a + b) == Disposed(a) + Disposed(b)
  {
    hide Behind;
    if a == [] {
      assert a + b == b;
    } else {
      var n, rest := a[0], a[1..];
      assert (a + b)[0] == n && (a + b)[1..] == rest + b;
      TraceConcat(rest, b);
      Assoc(Behind(n), Ops(rest), Ops(b));
      Assoc(if n.Interrupted? || n.LostVector? then [n.v] else [], Vectors(rest), Vectors(b));
      Assoc(if n.Accepted? || n.Squashed? || n.LostIssue? then [n.i] else [], Disposed(rest), Disposed(b));
    }
  }

  lemma PairedConcat(a: seq<Note>, b: seq<Note>)
    requires Paired(a) && Paired(b)
    ensures Paired(a + b)
  {
    hide Disposed;
    var all := a + b;
    forall k | 0 <= k < |all| && all[k].Stepped?
      ensures Disposed(all[k + 1..]) != [] && Disposed(all[k + 1..])[0] == all[k].next
    {
      if k < |a| {
        assert all[k + 1..] == a[k + 1..] + b && all[k] == a[k];
        TraceConcat(a[k + 1..], b);
      } else {
        assert all[k + 1..] == b[k - |a| + 1..] && all[k] == b[k - |a|];
      }
    }
  }

  /** Between a state and a later one: the reference did what is behind the
      notes, and vectors and issues left their queues in order. */
  ghost predicate Traced<R>(p: Reference<R>, h: Host<R>, notes: seq<Note>, after: Host<R>) {
    && p.did(after.r) == p.did(h.r) + Ops(notes)
    && h.vectors == Vectors(notes) + after.vectors
    && h.issues == Disposed(notes) + after.issues
  }

  lemma TracedAdds<R>(p: Reference<R>, a: Host<R>, m: seq<Note>, b: Host<R>, n: seq<Note>, c: Host<R>)
    requires Traced(p, a, m, b) && Traced(p, b, n, c)
    ensures Traced(p, a, m + n, c)
  {
    TraceConcat(m, n);
    Assoc(p.did(a.r), Ops(m), Ops(n));
    Assoc(Vectors(m), Vectors(n), c.vectors);
    Assoc(Disposed(m), Disposed(n), c.issues);
  }

  lemma Assoc<T>(a: seq<T>, b: seq<T>, c: seq<T>)
    ensures (a + b) + c == a + (b + c)
  {
  }

  lemma TraceOne(n: Note)
    ensures Ops([n]) == Behind(n) && Ops([]) == []
    ensures Vectors([n]) == (if n.Interrupted? || n.LostVector? then [n.v] else []) && Vectors([]) == []
    ensures Disposed([n]) == (if n.Accepted? || n.Squashed? || n.LostIssue? then [n.i] else []) && Disposed([]) == []
  {
    assert [n][1..] == [];
    assert Behind(n) + [] == Behind(n);
  }

  lemma NothingTraced<R>(p: Reference<R>, h: Host<R>)
    ensures Traced(p, h, [], h) && Paired([])
  {
  }

  lemma CutTraced<R(!new)>(p: Reference<R>, h: Host<R>)
    ensures Traced(p, h, CutShort(p, h).notes, CutShort(p, h).h)
  {
    TraceOne(Restarted);
  }

  /** The pending instruction is run to the count of the issue that has come
      if a vector waits and it is a repeated string, or else as a whole; then
      that issue's flags are taken. */
  lemma RunTraced<R(!new)>(p: Reference<R>, h: Host<R>, i: Issue)
    requires Remembers(p)
    ensures var t := RunCurrent(p, h, i);
            && (t.what != Diverged ==> Traced(p, h, t.notes, t.h))
            && (t.what == GoOn && h.haveCur ==>
                  p.did(t.h.r) == p.did(h.r)
                    + [if h.vectors != [] && p.atRep(h.r) then UpTo(i.ecx) else Instruction, FlagsFrom(i.eflags)])
            && (t.notes == [] || exists f, c :: t.notes == [Stepped(f, i, c)])
  {
    var t := RunCurrent(p, h, i);
    if t.notes == [] {
      TraceOne(Restarted);
    } else {
      assert t.notes == [t.notes[0]];
      TraceOne(t.notes[0]);
    }
    hide Ops, Vectors, Disposed;
    assert forall s: seq<Op>, x: Op, y: Op :: s + [x] + [y] == s + [x, y];
  }

  lemma VectorTraced<R(!new)>(p: Reference<R>, h: Host<R>, i: Issue)
    requires Remembers(p)
    ensures var t := TakeVector(p, h, i);
            && (t.what == GoOn ==> Traced(p, h, t.notes, t.h))
            && forall n :: n in t.notes ==> n.Interrupted?
  {
    hide Ops, Vectors, Disposed;
    TraceOne(Restarted);
    if h.vectors != [] {
      var v := h.vectors[0];
      HandlerRemembered(p, h.r, v);
      hide Remembers;
      TraceOne(Interrupted(v));
      assert h.vectors == [v] + h.vectors[1..] && h.issues == [] + h.issues;
    } else {
      NothingTraced(p, h);
    }
  }

  lemma HandlerRemembered<R(!new)>(p: Reference<R>, r: R, v: Byte)
    requires Remembers(p)
    ensures p.interrupt(r, v).Done? ==> p.did(p.interrupt(r, v).r) == p.did(r) + [Handler(v)]
  {
  }

  lemma FetchTraced<R(!new)>(p: Reference<R>, h: Host<R>, i: Issue)
    requires Remembers(p)
    ensures var t := FetchFaults(p, h, i);
            && (t.what == GoOn ==> Traced(p, h, t.notes, t.h))
            && forall n :: n in t.notes ==> n.FetchFault?
  {
    TraceOne(FetchFault);
  }

  lemma AcceptTraced<R>(p: Reference<R>, h: Host<R>, i: Issue)
    requires Whole(h) && h.issues != [] && h.issues[0] == i
    ensures var t := Accept(p, h, i);
            t.what == GoOn ==>
              Traced(p, h, t.notes, t.h) && exists cs, eip, regs :: t.notes == [Accepted(i, cs, eip, regs)]
  {
    hide CheckFrom;
    TraceOne(Accepted(i, p.cs(h.r), p.eip(h.r), Registers(p, h.r)));
    assert h.issues == [i] + h.issues[1..];
  }

  lemma DisposeTraced<R(!new)>(p: Reference<R>, h: Host<R>, i: Issue)
    requires Remembers(p) && Whole(h) && h.issues != [] && h.issues[0] == i
    ensures var t := Dispose(p, h, i);
            t.what == GoOn ==>
              && Traced(p, h, t.notes, t.h) && Disposed(t.notes) == [i]
              && forall n :: n in t.notes ==> !n.Stepped?
  {
    hide Accept, FetchFaults, SamePc, Ops, Vectors;
    if !SamePc(p, h.r, i) && h.squashOk {
      TraceOne(Squashed(i));
      assert h.issues == [i] + h.issues[1..];
    } else {
      FetchTraced(p, h, i);
      var f := FetchFaults(p, h, i);
      if f.what == GoOn {
        AcceptTraced(p, f.h, i);
        var a := Accept(p, f.h, i);
        if a.what == GoOn {
          hide Traced, Disposed;
          TracedAdds(p, h, f.notes, f.h, a.notes, a.h);
          OneDisposed(f.notes, a.notes, i);
        }
      }
    }
  }

  lemma OneDisposed(f: seq<Note>, a: seq<Note>, i: Issue)
    requires (forall n :: n in f ==> n.FetchFault?) && exists cs, eip, regs :: a == [Accepted(i, cs, eip, regs)]
    ensures Disposed(f + a) == [i] && forall n :: n in f + a ==> !n.Stepped?
  {
    TraceConcat(f, a);
    NoneDisposed(f);
    var cs, eip, regs :| a == [Accepted(i, cs, eip, regs)];
    TraceOne(a[0]);
  }

  lemma {:induction false} NoneDisposed(notes: seq<Note>)
    requires forall n :: n in notes ==> !n.Accepted? && !n.Squashed? && !n.LostIssue?
    ensures Disposed(notes) == []
  {
    if notes != [] {
      assert notes[0] in notes;
      NoneDisposed(notes[1..]);
    }
  }

  lemma NonePaired(notes: seq<Note>)
    requires forall n :: n in notes ==> !n.Stepped?
    ensures Paired(notes)
  {
  }

  /** A turn's notes: perhaps a step for issue i, then others, the last of
      which is done with i. */
  lemma TurnPaired(a: seq<Note>, b: seq<Note>, c: seq<Note>, d: seq<Note>, i: Issue)
    requires forall n :: n in a ==> n.Restarted?
    requires b == [] || exists f, cut :: b == [Stepped(f, i, cut)]
    requires (forall n :: n in c ==> n.Interrupted?) && Disposed(d) == [i] && forall n :: n in d ==> !n.Stepped?
    ensures Paired(a + b + c + d)
  {
    hide Paired, Disposed;
    var rest := c + d;
    TraceConcat(c, d);
    NoneDisposed(c);
    assert [] + [i] == [i];
    NonePaired(a);
    NonePaired(rest);
    if b != [] {
      StepFirst(b, rest, i);
    } else {
      assert b + rest == rest;
    }
    PairedConcat(a, b + rest);
    Assoc(a + b, c, d);
    Assoc(a, b, rest);
  }

  lemma StepFirst(b: seq<Note>, rest: seq<Note>, i: Issue)
    requires exists f, cut :: b == [Stepped(f, i, cut)]
    requires Disposed(rest) == [i] && forall n :: n in rest ==> !n.Stepped?
    ensures Paired(b + rest)
  {
    hide Disposed;
    var all := b + rest;
    assert all[1..] == rest && all[0] == b[0];
    assert forall k :: 0 < k < |all| ==> all[k] == rest[k - 1] && rest[k - 1] in rest;
  }

  lemma TakeOneTraced<R(!new)>(p: Reference<R>, h: Host<R>)
    requires Remembers(p) && Whole(h) && h.issues != []
    ensures var t := TakeOne(p, h); t.what != Diverged ==> Traced(p, h, t.notes, t.h) && Paired(t.notes)
  {
    hide Traced, Paired, Remembers, RunCurrent, TakeVector, Dispose;
    var i := h.issues[0];
    var a := CutShort(p, h);
    var b := RunCurrent(p, a.h, i);
    CutTraced(p, h);
    RunTraced(p, a.h, i);
    if b.what != Diverged {
      TracedAdds(p, h, a.notes, a.h, b.notes, b.h);
      if b.what == GoOn {
        var c := TakeVector(p, b.h, i);
        VectorTraced(p, b.h, i);
        if c.what == GoOn {
          TracedAdds(p, h, a.notes + b.notes, b.h, c.notes, c.h);
          DisposeTraced(p, c.h, i);
          var d := Dispose(p, c.h, i);
          if d.what == GoOn {
            TracedAdds(p, h, a.notes + b.notes + c.notes, c.h, d.notes, d.h);
            TurnPaired(a.notes, b.notes, c.notes, d.notes, i);
          }
        }
      } else {
        WaitsUnstepped(p, h, i);
      }
    }
  }

  lemma WaitsUnstepped<R>(p: Reference<R>, h: Host<R>, i: Issue)
    ensures var a := CutShort(p, h);
            var b := RunCurrent(p, a.h, i);
            b.what == Wait ==> Paired(a.notes + b.notes)
  {
  }

  lemma {:induction false} ProcessTraced<R(!new)>(p: Reference<R>, h: Host<R>)
    requires Remembers(p) && Whole(h)
    ensures var t := Process(p, h); t.what != Diverged ==> Traced(p, h, t.notes, t.h) && Paired(t.notes)
    decreases |h.issues|
  {
    hide Traced, Paired, TakeOne, Remembers;
    if h.issues == [] {
      NothingTraced(p, h);
    } else {
      TakeOneTraced(p, h);
      var t := TakeOne(p, h);
      if t.what == GoOn {
        ProcessTraced(p, t.h);
        var rest := Process(p, t.h);
        if rest.what != Diverged {
          TracedAdds(p, h, t.notes, t.h, rest.notes, rest.h);
          PairedConcat(t.notes, rest.notes);
        }
      }
    }
  }

  // ---- Whole runs, in order ----

  /** The issues and the vectors that came, in order. */
  function IssuesOf<R>(arrivals: seq<Arrival<R>>): seq<Issue> {
    if arrivals == [] then [] else (if arrivals[0].Issued? then [arrivals[0].i] else []) + IssuesOf(arrivals[1..])
  }

  function VectorsOf<R>(arrivals: seq<Arrival<R>>): seq<Byte> {
    if arrivals == [] then []
    else (if arrivals[0].Acknowledged? then [arrivals[0].v] else []) + VectorsOf(arrivals[1..])
  }

  /** The history of a whole run: the reference did what is behind the notes;
      the vectors that came are those delivered or dropped, in that order, and
      then those queued; and so with the issues. */
  ghost predicate Followed<R>(p: Reference<R>, h: Host<R>, arrivals: seq<Arrival<R>>, notes: seq<Note>,
                              after: Host<R>) {
    && p.did(after.r) == p.did(h.r) + Ops(notes)
    && h.vectors + VectorsOf(arrivals) == Vectors(notes) + after.vectors
    && h.issues + IssuesOf(arrivals) == Disposed(notes) + after.issues
  }

  /** An outside change of the reference, or a reset, is not its doing. */
  predicate Quiet<R>(p: Reference<R>, h: Host<R>, a: Arrival<R>) {
    a.Touched? || a.Reset? ==> p.did(a.r) == p.did(h.r)
  }

  ghost predicate AllQuiet<R>(p: Reference<R>, h: Host<R>, arrivals: seq<Arrival<R>>)
    requires Whole(h)
    decreases arrivals
  {
    arrivals != [] && Proper(p, h, arrivals[0]) ==>
      Quiet(p, h, arrivals[0]) && AllQuiet(p, Process(p, Arrive(h, arrivals[0])).h, arrivals[1..])
  }

  lemma {:induction false} DroppedIssues(issues: seq<Issue>)
    ensures var notes := IssuesLost(issues);
            Ops(notes) == [] && Vectors(notes) == [] && Disposed(notes) == issues
  {
    var notes := IssuesLost(issues);
    if issues != [] {
      assert notes[1..] == IssuesLost(issues[1..]);
      DroppedIssues(issues[1..]);
      assert issues == [issues[0]] + issues[1..];
    }
  }

  lemma {:induction false} DroppedVectors(vectors: seq<Byte>)
    ensures var notes := VectorsLost(vectors);
            Ops(notes) == [] && Vectors(notes) == vectors && Disposed(notes) == []
  {
    var notes := VectorsLost(vectors);
    if vectors != [] {
      assert notes[1..] == VectorsLost(vectors[1..]);
      DroppedVectors(vectors[1..]);
      assert vectors == [vectors[0]] + vectors[1..];
    }
  }

  /** What an arrival brings and drops. */
  lemma ArrivalTraced<R>(p: Reference<R>, h: Host<R>, a: Arrival<R>)
    requires Quiet(p, h, a)
    ensures var d, h' := Noted(h, a), Arrive(h, a);
            && p.did(h'.r) == p.did(h.r) && Ops(d) == []
            && h.vectors + (if a.Acknowledged? then [a.v] else []) == Vectors(d) + h'.vectors
            && h.issues + (if a.Issued? then [a.i] else []) == Disposed(d) + h'.issues
            && Paired(d)
  {
    hide Ops, Vectors, Disposed, Dropped, Paired;
    TraceOne(CutCame);
    if a.Reset? {
      ResetTraced(h);
      assert h.vectors + [] == h.vectors && h.issues + [] == h.issues;
    } else {
      NonePaired(Noted(h, a));
      assert h.vectors + [] == h.vectors && h.issues + [] == h.issues;
    }
  }

  lemma ResetTraced<R>(h: Host<R>)
    ensures var d := Dropped(h) + [WasReset];
            Ops(d) == [] && Vectors(d) == h.vectors && Disposed(d) == h.issues && Paired(d)
  {
    hide Ops, Vectors, Disposed;
    NonePaired(Dropped(h) + [WasReset]);
    var issues, vectors := IssuesLost(h.issues), VectorsLost(h.vectors);
    DroppedIssues(h.issues);
    DroppedVectors(h.vectors);
    TraceConcat(issues, vectors);
    TraceConcat(issues + vectors, if h.haveCur then [LostPending] else []);
    TraceConcat(Dropped(h), [WasReset]);
    TraceOne(LostPending);
    TraceOne(WasReset);
  }

  lemma JoinQueue<T>(q: seq<T>, came: seq<T>, d: seq<T>, q1: seq<T>, m: seq<T>, q2: seq<T>, later: seq<T>, n: seq<T>,
                     q3: seq<T>)
    requires q + came == d + q1 && q1 == m + q2 && q2 + later == n + q3
    ensures q + (came + later) == d + m + n + q3
  {
    assert q + (came + later) == (q + came) + later;
    assert (d + q1) + later == d + (q1 + later);
    assert (m + q2) + later == m + (q2 + later);
    assert d + (m + (n + q3)) == d + m + n + q3;
  }

  lemma OneFollowed<R>(p: Reference<R>, h: Host<R>, arrivals: seq<Arrival<R>>, m: seq<Note>, b: Host<R>,
                       n: seq<Note>, c: Host<R>)
    requires arrivals != [] && Quiet(p, h, arrivals[0])
    requires Traced(p, Arrive(h, arrivals[0]), m, b) && Followed(p, b, arrivals[1..], n, c)
    ensures Followed(p, h, arrivals, Noted(h, arrivals[0]) + m + n, c)
  {
    hide Ops, Vectors, Disposed, Noted, Paired;
    var a, d := arrivals[0], Noted(h, arrivals[0]);
    var h1 := Arrive(h, a);
    ArrivalTraced(p, h, a);
    TraceConcat(d, m);
    TraceConcat(d + m, n);
    assert p.did(h.r) + (Ops(m) + Ops(n)) == p.did(h.r) + Ops(m) + Ops(n);
    assert [] + Ops(m) == Ops(m);
    JoinQueue(h.vectors, if a.Acknowledged? then [a.v] else [], Vectors(d), h1.vectors, Vectors(m), b.vectors,
              VectorsOf(arrivals[1..]), Vectors(n), c.vectors);
    JoinQueue(h.issues, if a.Issued? then [a.i] else [], Disposed(d), h1.issues, Disposed(m), b.issues,
              IssuesOf(arrivals[1..]), Disposed(n), c.issues);
  }

  /** Over every run without a divergence: what the reference was made to do,
      in order, is what the notes say. Each instruction run was run for the
      issue done with next, with its count if it was cut, and its flags; and
      no vector and no issue is lost, repeated or out of turn. */
  lemma {:induction false} RunsFollow<R(!new)>(p: Reference<R>, h: Host<R>, arrivals: seq<Arrival<R>>)
    requires Remembers(p) && Whole(h) && AllQuiet(p, h, arrivals)
    ensures var t := Follow(p, h, arrivals);
            t.what != Diverged ==> Followed(p, h, arrivals, t.notes, t.h) && Paired(t.notes)
    decreases arrivals
  {
    hide Remembers, Traced, Followed, Process, Paired, Quiet;
    if arrivals == [] {
      NothingFollowed(p, h);
    } else if Proper(p, h, arrivals[0]) {
      var h1 := Arrive(h, arrivals[0]);
      ProcessTraced(p, h1);
      var t := Process(p, h1);
      if t.what != Diverged {
        RunsFollow(p, t.h, arrivals[1..]);
        var rest := Follow(p, t.h, arrivals[1..]);
        if rest.what != Diverged {
          OneFollowed(p, h, arrivals, t.notes, t.h, rest.notes, rest.h);
          ArrivalTraced(p, h, arrivals[0]);
          PairedConcat(Noted(h, arrivals[0]), t.notes);
          PairedConcat(Noted(h, arrivals[0]) + t.notes, rest.notes);
        }
      }
    }
  }

  lemma NothingFollowed<R>(p: Reference<R>, h: Host<R>)
    ensures Followed(p, h, [], [], h) && Paired([])
  {
  }

  /** The vectors whose handlers were entered. */
  function Entered(ops: seq<Op>): seq<Byte> {
    if ops == [] then [] else (if ops[0].Handler? then [ops[0].v] else []) + Entered(ops[1..])
  }

  function Delivered(notes: seq<Note>): seq<Byte> {
    if notes == [] then [] else (if notes[0].Interrupted? then [notes[0].v] else []) + Delivered(notes[1..])
  }

  lemma {:induction false} EnteredConcat(a: seq<Op>, b: seq<Op>)
    ensures Entered(a + b) == Entered(a) + Entered(b)
  {
    if a == [] {
      assert a + b == b;
    } else {
      assert (a + b)[0] == a[0] && (a + b)[1..] == a[1..] + b;
      EnteredConcat(a[1..], b);
    }
  }

  lemma {:induction false} EnteredAreDelivered(notes: seq<Note>)
    ensures Entered(Ops(notes)) == Delivered(notes)
  {
    if notes != [] {
      EnteredAreDelivered(notes[1..]);
      EnteredConcat(Behind(notes[0]), Ops(notes[1..]));
      BehindEntered(notes[0]);
    }
  }

  lemma BehindEntered(n: Note)
    ensures Entered(Behind(n)) == if n.Interrupted? then [n.v] else []
  {
    match n
    case Stepped(_, next, cut) =>
      var first: Op := if cut then UpTo(next.ecx) else Instruction;
      assert [first, FlagsFrom(next.eflags)][1..] == [FlagsFrom(next.eflags)] && [FlagsFrom(next.eflags)][1..] == [];
      assert Entered([FlagsFrom(next.eflags)]) == [];
    case Interrupted(v) => assert [Handler(v)][1..] == [];
    case FetchFault => assert [Instruction][1..] == [];
    case _ =>
  }

  lemma {:induction false} NoneLost(notes: seq<Note>)
    requires forall n :: n in notes ==> !n.LostVector?
    ensures Vectors(notes) == Delivered(notes)
  {
    if notes != [] {
      assert notes[0] in notes;
      NoneLost(notes[1..]);
    }
  }

  /** The handlers that the reference entered are those of the vectors z486
      acknowledged: over a run without a divergence or a reset, they and the
      vectors still queued are the vectors that came, in order; and in any run
      what is entered is what was delivered and not dropped. */
  lemma HandlersAreVectors<R(!new)>(p: Reference<R>, h: Host<R>, arrivals: seq<Arrival<R>>)
    requires Remembers(p) && Whole(h) && AllQuiet(p, h, arrivals)
    ensures var t := Follow(p, h, arrivals);
            t.what != Diverged ==>
              && Entered(p.did(t.h.r)) == Entered(p.did(h.r)) + Delivered(t.notes)
              && h.vectors + VectorsOf(arrivals) == Vectors(t.notes) + t.h.vectors
              && ((forall n :: n in t.notes ==> !n.LostVector?) && h.vectors == [] && p.did(h.r) == [] ==>
                    VectorsOf(arrivals) == Entered(p.did(t.h.r)) + t.h.vectors)
  {
    hide Remembers, Follow, Ops, AllQuiet, Paired, Delivered, Vectors, Disposed, IssuesOf, VectorsOf;
    RunsFollow(p, h, arrivals);
    var t := Follow(p, h, arrivals);
    if t.what != Diverged {
      EnteredConcat(p.did(h.r), Ops(t.notes));
      EnteredAreDelivered(t.notes);
      if (forall n :: n in t.notes ==> !n.LostVector?) && h.vectors == [] && p.did(h.r) == [] {
        NoneLost(t.notes);
        assert [] + VectorsOf(arrivals) == VectorsOf(arrivals);
      }
    }
  }

  // ---- The registers over a run ----

  /** The registers compared at each accepted issue. */
  function Compared(notes: seq<Note>): (s: seq<Sample>) {
    if notes == [] then []
    else (if notes[0].Accepted? then [Sample(notes[0].i.gpr, notes[0].regs)] else []) + Compared(notes[1..])
  }

  lemma {:induction false} ComparedConcat(a: seq<Note>, b: seq<Note>)
    ensures Compared(a + b) == Compared(a) + Compared(b)
  {
    if a == [] {
      assert a + b == b;
    } else {
      assert (a + b)[0] == a[0] && (a + b)[1..] == a[1..] + b;
      ComparedConcat(a[1..], b);
      Assoc(if a[0].Accepted? then [Sample(a[0].i.gpr, a[0].regs)] else [], Compared(a[1..]), Compared(b));
    }
  }

  /** After any comparisons that led to the counters before, these have led on
      to those after, and none failed. */
  ghost predicate Checked<R>(h: Host<R>, notes: seq<Note>, after: Host<R>) {
    forall s :: Samples(s) && CheckAll(s) == (h.miss, true) ==>
      Samples(s + Compared(notes)) && CheckAll(s + Compared(notes)) == (after.miss, true)
  }

  lemma CheckedAdds<R>(a: Host<R>, m: seq<Note>, b: Host<R>, n: seq<Note>, c: Host<R>)
    requires Checked(a, m, b) && Checked(b, n, c)
    ensures Checked(a, m + n, c)
  {
    hide Compared;
    ComparedConcat(m, n);
    forall s | Samples(s) && CheckAll(s) == (a.miss, true)
      ensures Samples(s + Compared(m + n)) && CheckAll(s + Compared(m + n)) == (c.miss, true)
    {
      Assoc(s, Compared(m), Compared(n));
    }
  }

  lemma {:induction false} NoneCompared(notes: seq<Note>)
    requires forall n :: n in notes ==> !n.Accepted?
    ensures Compared(notes) == []
  {
    if notes != [] {
      assert notes[0] in notes;
      NoneCompared(notes[1..]);
    }
  }

  lemma UncheckedChecked<R>(h: Host<R>, notes: seq<Note>, after: Host<R>)
    requires after.miss == h.miss && forall n :: n in notes ==> !n.Accepted?
    ensures Checked(h, notes, after)
  {
    hide CheckAll, Samples;
    NoneCompared(notes);
    forall s: seq<Sample>
      ensures s + Compared(notes) == s
    {
    }
  }

  lemma AcceptChecked<R>(p: Reference<R>, h: Host<R>, i: Issue)
    requires Whole(h) && h.issues != [] && h.issues[0] == i
    ensures var t := Accept(p, h, i); t.what == GoOn ==> Checked(h, t.notes, t.h)
  {
    hide CheckFrom;
    var t := Accept(p, h, i);
    if t.what == GoOn {
      var x := Sample(i.gpr, Registers(p, h.r));
      var n := t.notes[0];
      assert t.notes == [n] && [n][1..] == [] && Compared([]) == [];
      assert Compared(t.notes) == [x] + [] == [x];
      forall s | Samples(s) && CheckAll(s) == (h.miss, true)
        ensures Samples(s + [x]) && CheckAll(s + [x]) == (t.h.miss, true)
      {
        assert (s + [x])[..|s|] == s;
      }
    }
  }

  lemma DisposeChecked<R>(p: Reference<R>, h: Host<R>, i: Issue)
    requires Whole(h) && h.issues != [] && h.issues[0] == i
    ensures var t := Dispose(p, h, i); t.what == GoOn ==> Checked(h, t.notes, t.h)
  {
    hide Accept, SamePc, Checked;
    if !SamePc(p, h.r, i) && h.squashOk {
      UncheckedChecked(h, [Squashed(i)], Dispose(p, h, i).h);
    } else {
      var f := FetchFaults(p, h, i);
      if f.what == GoOn {
        UncheckedChecked(h, f.notes, f.h);
        AcceptChecked(p, f.h, i);
        var a := Accept(p, f.h, i);
        if a.what == GoOn {
          CheckedAdds(h, f.notes, f.h, a.notes, a.h);
        }
      }
    }
  }

  lemma TakeOneChecked<R>(p: Reference<R>, h: Host<R>)
    requires Whole(h) && h.issues != []
    ensures var t := TakeOne(p, h); t.what != Diverged ==> Checked(h, t.notes, t.h)
  {
    hide Checked, Dispose;
    var i := h.issues[0];
    var a := CutShort(p, h);
    var b := RunCurrent(p, a.h, i);
    UncheckedChecked(h, a.notes, a.h);
    UncheckedChecked(a.h, b.notes, b.h);
    CheckedAdds(h, a.notes, a.h, b.notes, b.h);
    if b.what == GoOn {
      var c := TakeVector(p, b.h, i);
      UncheckedChecked(b.h, c.notes, c.h);
      CheckedAdds(h, a.notes + b.notes, b.h, c.notes, c.h);
      if c.what == GoOn {
        DisposeChecked(p, c.h, i);
        var d := Dispose(p, c.h, i);
        if d.what == GoOn {
          CheckedAdds(h, a.notes + b.notes + c.notes, c.h, d.notes, d.h);
        }
      }
    }
  }

  lemma {:induction false} ProcessChecked<R>(p: Reference<R>, h: Host<R>)
    requires Whole(h)
    ensures var t := Process(p, h); t.what != Diverged ==> Checked(h, t.notes, t.h)
    decreases |h.issues|
  {
    hide Checked, TakeOne;
    if h.issues == [] {
      UncheckedChecked(h, [], h);
    } else {
      TakeOneChecked(p, h);
      var t := TakeOne(p, h);
      if t.what == GoOn {
        ProcessChecked(p, t.h);
        var rest := Process(p, t.h);
        if rest.what != Diverged {
          CheckedAdds(h, t.notes, t.h, rest.notes, rest.h);
        }
      }
    }
  }

  lemma {:induction false} RunsChecked<R>(p: Reference<R>, h: Host<R>, arrivals: seq<Arrival<R>>)
    requires Whole(h)
    ensures var t := Follow(p, h, arrivals); t.what != Diverged ==> Checked(h, t.notes, t.h)
    decreases arrivals
  {
    hide Checked, Process;
    if arrivals == [] {
      UncheckedChecked(h, [], h);
    } else if Proper(p, h, arrivals[0]) {
      var h1, d := Arrive(h, arrivals[0]), Noted(h, arrivals[0]);
      NothingCompared(h, arrivals[0]);
      UncheckedChecked(h, d, h1);
      ProcessChecked(p, h1);
      var t := Process(p, h1);
      if t.what != Diverged {
        CheckedAdds(h, d, h1, t.notes, t.h);
        RunsChecked(p, t.h, arrivals[1..]);
        var rest := Follow(p, t.h, arrivals[1..]);
        if rest.what != Diverged {
          CheckedAdds(h, d + t.notes, t.h, rest.notes, rest.h);
        }
      }
    }
  }

  lemma NothingCompared<R>(h: Host<R>, a: Arrival<R>)
    ensures forall n :: n in Noted(h, a) ==> !n.Accepted?
    ensures Arrive(h, a).miss == h.miss
  {
  }

  /** Over a run without a divergence, through any resets, no register has
      differed at 64 accepted issues in a row. */
  lemma NoLongStreak<R>(p: Reference<R>, h: Host<R>, arrivals: seq<Arrival<R>>, k: nat)
    requires Whole(h) && h.miss == seq(REGISTERS, _ => 0) && k < REGISTERS
    requires Follow(p, h, arrivals).what != Diverged
    ensures var s := Compared(Follow(p, h, arrivals).notes);
            Samples(s) && forall n :: 0 <= n <= |s| ==> Samples(s[..n]) && Streak(s[..n], k) < PERSIST
  {
    hide Follow, Compared;
    RunsChecked(p, h, arrivals);
    var s := Compared(Follow(p, h, arrivals).notes);
    assert CheckAll([]) == (h.miss, true) && [] + s == s;
    forall n | 0 <= n <= |s|
      ensures Samples(s[..n]) && Streak(s[..n], k) < PERSIST
    {
      AllBefore(s, n, k);
    }
  }

  lemma {:induction false} AllBefore(s: seq<Sample>, n: nat, k: nat)
    requires Samples(s) && CheckAll(s).1 && n <= |s| && k < REGISTERS
    ensures Samples(s[..n]) && Streak(s[..n], k) < PERSIST
    decreases |s|
  {
    if n < |s| {
      assert s[..|s| - 1][..n] == s[..n];
      AllBefore(s[..|s| - 1], n, k);
    } else {
      assert s[..n] == s;
      if s != [] {
        var x, t := s[|s| - 1], s[..|s| - 1];
        assert t + [x] == s;
        RegistersDivergeIff(t, x);
      }
    }
  }
}
