/** The issue loop as the program runs it, with its counters. */
module IssueChecker {
  import opened Platform
  import opened Issues

  class Checker<R> {
    const p: Reference<R>
    var r: R
    var issues: seq<Issue>
    var vectors: seq<Byte>
    var haveCur: bool
    var squashOk: bool
    var restarted: bool
    var miss: seq<nat>
    var irqs: nat
    var squashed: nat

    /** A checker out of reset. */
    constructor (p: Reference<R>, r: R)
      ensures this.p == p && State() == Host(r, [], [], false, false, false, seq(REGISTERS, _ => 0)) && Whole(State())
    {
      this.p, this.r, issues, vectors := p, r, [], [];
      haveCur, squashOk, restarted, miss := false, false, false, seq(REGISTERS, _ => 0);
      irqs, squashed := 0, 0;
    }

    /** Out of a warm reset, with the reference at its reset vector. */
    method Reset(r: R)
      modifies this`r, this`issues, this`vectors, this`haveCur, this`squashOk
      ensures State() == Arrive(old(State()), Arrival.Reset(r))
    {
      this.r, issues, vectors := r, [], [];
      haveCur, squashOk := false, false;
    }

    ghost function State(): Host<R>
      reads this
    {
      Host(r, issues, vectors, haveCur, squashOk, restarted, miss)
    }

    /** check_registers. */
    method CheckRegisters(gpr: seq<Word32>) returns (ok: bool)
      requires |gpr| == REGISTERS && |miss| == REGISTERS
      modifies this`miss
      ensures (miss, ok) == CheckFrom(gpr, Registers(p, r), old(miss), 0)
    {
      var k := 0;
      ghost var refs := Registers(p, r);
      while k < REGISTERS
        invariant 0 <= k <= REGISTERS && |miss| == REGISTERS
        invariant CheckFrom(gpr, refs, miss, k) == CheckFrom(gpr, refs, old(miss), 0)
      {
        if gpr[k] == p.reg(r, k) {
          miss := miss[k := 0];
        } else {
          miss := miss[k := miss[k] + 1];
          if miss[k] >= PERSIST {
            return false;
          }
        }
        k := k + 1;
      }
      ok := true;
    }

    method RunPending(i: Issue) returns (what: What, ghost notes: seq<Note>)
      modifies this`r, this`haveCur, this`restarted, this`squashOk
      ensures Turn.Turn(State(), notes, what) == RunCurrent(p, old(State()), i)
    {
      what, notes := GoOn, [];
      if haveCur {
        ghost var cut := vectors != [] && p.atRep(r);
        var out := if vectors != [] && p.atRep(r) then p.stepTo(r, i.ecx) else p.step(r);
        match out {
          case Stalled(s) =>
            r := s;
            what := Wait;
          case Error => what := Diverged;
          case Done(s) =>
            haveCur, restarted, squashOk := false, false, p.faulted(s);
            r := p.adopt(s, i.eflags);
            notes := [Stepped(squashOk, i, cut)];
        }
      }
    }

    method DeliverVector(i: Issue) returns (what: What, ghost notes: seq<Note>)
      modifies this`r, this`vectors, this`irqs
      ensures Turn.Turn(State(), notes, what) == TakeVector(p, old(State()), i)
      ensures what == GoOn ==> irqs == old(irqs) + Count(notes, Interrupts)
    {
      what, notes := GoOn, [];
      if !SamePc(p, r, i) && vectors != [] {
        var v := vectors[0];
        vectors := vectors[1..];
        irqs := irqs + 1;
        var out := p.interrupt(r, v);
        if out.Done? {
          r := out.r;
          notes := [Interrupted(v)];
          CountOne(Interrupted(v), Interrupts);
        } else {
          what := Diverged;
        }
      }
    }

    method RunFaultingFetch(i: Issue) returns (what: What, ghost notes: seq<Note>)
      modifies this`r
      ensures Turn.Turn(State(), notes, what) == FetchFaults(p, old(State()), i)
    {
      what, notes := GoOn, [];
      if !SamePc(p, r, i) {
        var out := p.step(r);
        if out.Error? {
          return Diverged, [];
        }
        r := out.r;
        if !p.faulted(r) || !SamePc(p, r, i) {
          return Diverged, [];
        }
        notes := if out.Done? then [FetchFault] else [];
      }
    }

    method AcceptIssue(i: Issue) returns (what: What, ghost notes: seq<Note>)
      requires Whole(State()) && issues != [] && issues[0] == i
      modifies this`squashOk, this`haveCur, this`miss, this`issues
      ensures Turn.Turn(State(), notes, what) == Accept(p, old(State()), i)
    {
      hide CheckFrom;
      what, notes := GoOn, [];
      squashOk, haveCur := false, true;
      var ok := CheckRegisters(i.gpr);
      if !ok {
        what := Diverged;
      } else {
        issues := issues[1..];
        notes := [Accepted(i, p.cs(r), p.eip(r), Registers(p, r))];
      }
    }

    method AcceptOrSquash(i: Issue) returns (what: What, ghost notes: seq<Note>)
      requires Whole(State()) && issues != [] && issues[0] == i
      modifies this
      ensures Turn.Turn(State(), notes, what) == Dispose(p, old(State()), i)
      ensures irqs == old(irqs) && squashed == old(squashed) + (if notes == [Squashed(i)] then 1 else 0)
    {
      hide CheckFrom, Accept, FetchFaults;
      if !SamePc(p, r, i) && squashOk {
        squashOk := false;
        squashed := squashed + 1;
        issues := issues[1..];
        return GoOn, [Squashed(i)];
      }
      what, notes := RunFaultingFetch(i);
      if what == GoOn {
        ghost var more;
        what, more := AcceptIssue(i);
        notes := notes + more;
      }
      assert notes != [Squashed(i)] by { Unsquashed(old(State()), i); }
    }

    lemma Unsquashed(h: Host<R>, i: Issue)
      requires Whole(h) && h.issues != [] && h.issues[0] == i && (SamePc(p, h.r, i) || !h.squashOk)
      ensures Squashed(i) !in Dispose(p, h, i).notes
    {
      hide CheckFrom;
    }

    /** One turn of the loop. */
    method TakeIssue() returns (what: What, ghost notes: seq<Note>)
      requires Whole(State()) && issues != []
      modifies this
      ensures Turn.Turn(State(), notes, what) == TakeOne(p, old(State()))
    {
      hide CheckFrom, Dispose, RunCurrent, TakeVector;
      var i := issues[0];
      ghost var before: seq<Note> := [];
      if haveCur && restarted && !p.atRep(r) {
        haveCur, restarted, squashOk := false, false, false;
        before := [Restarted];
      }
      assert Turn.Turn(State(), before, GoOn) == CutShort(p, old(State()));
      what, notes := RunPending(i);
      notes := before + notes;
      if what != GoOn {
        return;
      }
      ghost var more;
      what, more := DeliverVector(i);
      notes := notes + more;
      if what != GoOn {
        return;
      }
      what, more := AcceptOrSquash(i);
      notes := notes + more;
    }

    /** process_issues: false on a divergence. */
    method ProcessIssues() returns (ok: bool, ghost notes: seq<Note>)
      requires Whole(State())
      modifies this
      ensures var t := Process(p, old(State())); State() == t.h && notes == t.notes && ok == (t.what != Diverged)
    {
      hide TakeOne;
      notes := [];
      while issues != []
        invariant Whole(State())
        invariant var t, all := Process(p, State()), Process(p, old(State()));
                  t.h == all.h && notes + t.notes == all.notes && t.what == all.what
        decreases |issues|
      {
        ghost var n;
        var what;
        what, n := TakeIssue();
        notes := notes + n;
        if what != GoOn {
          return what != Diverged, notes;
        }
      }
      ok := true;
    }
  }
}
