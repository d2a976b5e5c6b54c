/** Following z486's issues: each one runs the instruction before it on the
    reference, delivers what the program counters call for, and is accepted,
    or is squashed as younger than a fault. */
module Issues {
  import opened Platform

  /** The reference's operations, over any state of it. */
  datatype Ran<+R> = Done(r: R) | Stalled(r: R) | Error

  /** What the reference has been made to do: run an instruction, run a
      repeated string as far as a count, enter a vector's handler, take flags
      from z486. */
  datatype Op = Instruction | UpTo(ecx: Word32) | Handler(v: Byte) | FlagsFrom(eflags: Word32)

  datatype Reference<!R> = Reference(
    cs: R -> Word16, eip: R -> Word32, ran: R -> nat, did: R -> seq<Op>, atRep: R -> bool, faulted: R -> bool,
    reg: (R, nat) -> Word32, step: R -> Ran<R>, stepTo: (R, Word32) -> Ran<R>, interrupt: (R, Byte) -> Ran<R>,
    adopt: (R, Word32) -> R)

  /** The reference remembers what it did; a stall is nothing. */
  ghost predicate Remembers<R(!new)>(p: Reference<R>) {
    && (forall r :: p.step(r).Done? ==> p.did(p.step(r).r) == p.did(r) + [Instruction])
    && (forall r :: p.step(r).Stalled? ==> p.did(p.step(r).r) == p.did(r) && !p.faulted(p.step(r).r))
    && (forall r, n :: p.stepTo(r, n).Done? ==> p.did(p.stepTo(r, n).r) == p.did(r) + [UpTo(n)])
    && (forall r, n :: p.stepTo(r, n).Stalled? ==> p.did(p.stepTo(r, n).r) == p.did(r))
    && (forall r, v :: p.interrupt(r, v).Done? ==> p.did(p.interrupt(r, v).r) == p.did(r) + [Handler(v)])
    && (forall r, e :: p.did(p.adopt(r, e)) == p.did(r) + [FlagsFrom(e)])
  }

  /** What the reference promises: an instruction, or an interrupt, counts as
      one; a stall and an adoption of flags count as none; a stall is not a
      fault. */
  ghost predicate Lawful<R(!new)>(p: Reference<R>) {
    && (forall r :: p.step(r).Done? ==> p.ran(p.step(r).r) == p.ran(r) + 1)
    && (forall r :: p.step(r).Stalled? ==> p.ran(p.step(r).r) == p.ran(r) && !p.faulted(p.step(r).r))
    && (forall r, n :: p.stepTo(r, n).Done? ==> p.ran(p.stepTo(r, n).r) == p.ran(r) + 1)
    && (forall r, n :: p.stepTo(r, n).Stalled? ==> p.ran(p.stepTo(r, n).r) == p.ran(r))
    && (forall r, v :: p.interrupt(r, v).Done? ==> p.ran(p.interrupt(r, v).r) == p.ran(r) + 1)
    && (forall r, e :: p.ran(p.adopt(r, e)) == p.ran(r) && p.faulted(p.adopt(r, e)) == p.faulted(r))
  }

  const REGISTERS: nat := 8
  const PERSIST: nat := 64

  /** An issue: where, ECX and the flags before it, and the registers. */
  datatype Issue = Issue(cs: Word16, eip: Word32, ecx: Word32, eflags: Word32, gpr: seq<Word32>)

  /** The checker between clocks. */
  datatype Host<R> = Host(r: R, issues: seq<Issue>, vectors: seq<Byte>, haveCur: bool, squashOk: bool,
                          restarted: bool, miss: seq<nat>)

  /** What was done with an issue, or on its way: the pending instruction was
      run when issue `next` came, perhaps cut to its count; what a reset
      dropped: the pending instruction, a queued issue, a vector; and that a cut
      came, or the reset. */
  datatype Note = Stepped(fault: bool, next: Issue, cut: bool) | Restarted | Squashed(i: Issue) | Interrupted(v: Byte)
                | FetchFault | Accepted(i: Issue, cs: Word16, eip: Word32, regs: seq<Word32>)
                | LostPending | LostIssue(i: Issue) | LostVector(v: Byte) | CutCame | WasReset

  datatype Turn<R> = Turn(h: Host<R>, notes: seq<Note>, what: What)
  datatype What = GoOn | Wait | Diverged

  predicate Whole<R>(h: Host<R>) {
    |h.miss| == REGISTERS && forall i :: i in h.issues ==> |i.gpr| == REGISTERS
  }

  /** The queue and the register counters are left alone. */
  predicate Keeps<R>(h: Host<R>, after: Host<R>) {
    after.issues == h.issues && after.miss == h.miss
  }

  // ---- Registers ----

  /** The consecutive mismatches of each register, from register k on; stops
      at the first that has lasted too long. */
  function CheckFrom(gpr: seq<Word32>, refs: seq<Word32>, miss: seq<nat>, k: nat): (r: (seq<nat>, bool))
    requires |gpr| == |refs| == |miss| && k <= |miss|
    ensures |r.0| == |miss|
    decreases |miss| - k
  {
    if k == |miss| then (miss, true)
    else if gpr[k] == refs[k] then CheckFrom(gpr, refs, miss[k := 0], k + 1)
    else
      var missed := miss[k := miss[k] + 1];
      if missed[k] >= PERSIST then (missed, false) else CheckFrom(gpr, refs, missed, k + 1)
  }

  function Registers<R>(p: Reference<R>, r: R): (s: seq<Word32>)
    ensures |s| == REGISTERS && forall k :: 0 <= k < REGISTERS ==> s[k] == p.reg(r, k)
  {
    seq<Word32>(REGISTERS, k requires 0 <= k < REGISTERS => p.reg(r, k))
  }

  // ---- One issue ----

  predicate SamePc<R>(p: Reference<R>, r: R, i: Issue) {
    p.eip(r) == i.eip && p.cs(r) == i.cs
  }

  /** z486 cut the pending instruction for an interrupt and will start it
      again: the reference does not run it now. */
  function CutShort<R>(p: Reference<R>, h: Host<R>): (t: Turn<R>)
    ensures Keeps(h, t.h) && t.what == GoOn
  {
    if h.haveCur && h.restarted && !p.atRep(h.r) then
      Turn(h.(haveCur := false, restarted := false, squashOk := false), [Restarted], GoOn)
    else Turn(h, [], GoOn)
  }

  /** The pending instruction run, a repeated string only as far as the next
      issue's count if an interrupt was acknowledged. */
  function RunCurrent<R>(p: Reference<R>, h: Host<R>, i: Issue): (t: Turn<R>)
    ensures Keeps(h, t.h)
  {
    if !h.haveCur then Turn(h, [], GoOn)
    else
      match if h.vectors != [] && p.atRep(h.r) then p.stepTo(h.r, i.ecx) else p.step(h.r)
      case Stalled(r) => Turn(h.(r := r), [], Wait)
      case Error => Turn(h, [], Diverged)
      case Done(r) =>
        var fault := p.faulted(r);
        Turn(h.(r := p.adopt(r, i.eflags), haveCur := false, restarted := false, squashOk := fault),
              [Stepped(fault, i, h.vectors != [] && p.atRep(h.r))], GoOn)
  }

  function TakeVector<R>(p: Reference<R>, h: Host<R>, i: Issue): (t: Turn<R>)
    ensures Keeps(h, t.h) && t.what != Wait
  {
    if SamePc(p, h.r, i) || h.vectors == [] then Turn(h, [], GoOn)
    else
      match p.interrupt(h.r, h.vectors[0])
      case Done(r) => Turn(h.(r := r, vectors := h.vectors[1..]), [Interrupted(h.vectors[0])], GoOn)
      case _ => Turn(h.(vectors := h.vectors[1..]), [], Diverged)
  }

  /** An instruction fetch that faults is not issued; the reference runs it. */
  function FetchFaults<R>(p: Reference<R>, h: Host<R>, i: Issue): (t: Turn<R>)
    ensures Keeps(h, t.h) && t.what != Wait
  {
    if SamePc(p, h.r, i) then Turn(h, [], GoOn)
    else
      match p.step(h.r)
      case Error => Turn(h, [], Diverged)
      case Stalled(r) =>
        if !p.faulted(r) || !SamePc(p, r, i) then Turn(h.(r := r), [], Diverged) else Turn(h.(r := r), [], GoOn)
      case Done(r) =>
        if !p.faulted(r) || !SamePc(p, r, i) then Turn(h.(r := r), [], Diverged)
        else Turn(h.(r := r), [FetchFault], GoOn)
  }

  function Accept<R>(p: Reference<R>, h: Host<R>, i: Issue): (t: Turn<R>)
    requires Whole(h) && h.issues != [] && h.issues[0] == i
    ensures Whole(t.h) && t.what != Wait && t.h.issues == if t.what == GoOn then h.issues[1..] else h.issues
  {
    var checked := CheckFrom(i.gpr, Registers(p, h.r), h.miss, 0);
    var h' := h.(squashOk := false, haveCur := true, miss := checked.0);
    if !checked.1 then Turn(h', [], Diverged)
    else Turn(h'.(issues := h.issues[1..]), [Accepted(i, p.cs(h.r), p.eip(h.r), Registers(p, h.r))],
              GoOn)
  }

  /** Squashed as younger than a fault, or accepted. */
  function Dispose<R>(p: Reference<R>, h: Host<R>, i: Issue): (t: Turn<R>)
    requires Whole(h) && h.issues != [] && h.issues[0] == i
    ensures Whole(t.h) && t.what != Wait && t.h.issues == if t.what == GoOn then h.issues[1..] else h.issues
  {
    if !SamePc(p, h.r, i) && h.squashOk then
      Turn(h.(squashOk := false, issues := h.issues[1..]), [Squashed(i)], GoOn)
    else
      var f := FetchFaults(p, h, i);
      if f.what != GoOn then f
      else
        var a := Accept(p, f.h, i);
        Turn(a.h, f.notes + a.notes, a.what)
  }

  /** One turn of the loop: the oldest issue. */
  function TakeOne<R>(p: Reference<R>, h: Host<R>): (t: Turn<R>)
    requires Whole(h) && h.issues != []
    ensures Whole(t.h) && |t.h.issues| <= |h.issues|
    ensures t.what == GoOn ==> t.h.issues == h.issues[1..]
    ensures t.what == Wait ==> t.h.issues == h.issues
  {
    var i := h.issues[0];
    var a := CutShort(p, h);
    var b := RunCurrent(p, a.h, i);
    if b.what != GoOn then Turn(b.h, a.notes + b.notes, b.what)
    else
      var c := TakeVector(p, b.h, i);
      if c.what != GoOn then Turn(c.h, a.notes + b.notes + c.notes, c.what)
      else
        var d := Dispose(p, c.h, i);
        Turn(d.h, a.notes + b.notes + c.notes + d.notes, d.what)
  }

  /** process_issues. */
  function Process<R>(p: Reference<R>, h: Host<R>): (t: Turn<R>)
    requires Whole(h)
    ensures Whole(t.h)
    decreases |h.issues|
  {
    if h.issues == [] then Turn(h, [], GoOn)
    else
      var t := TakeOne(p, h);
      if t.what != GoOn then t
      else
        var rest := Process(p, t.h);
        Turn(rest.h, t.notes + rest.notes, rest.what)
  }

  // ---- Accounts ----

  datatype Kind = Steps | Faults | Restarts | Squashes | Interrupts | FetchSteps | Accepts
                | LostPendings | LostIssues | LostVectors

  predicate Is(n: Note, k: Kind) {
    match k
    case Steps => n.Stepped? case Faults => n.Stepped? && n.fault case Restarts => n.Restarted?
    case Squashes => n.Squashed? case Interrupts => n.Interrupted? case FetchSteps => n.FetchFault?
    case Accepts => n.Accepted? case LostPendings => n.LostPending? case LostIssues => n.LostIssue?
    case LostVectors => n.LostVector?
  }

  function Count(notes: seq<Note>, k: Kind): nat {
    if notes == [] then 0 else (if Is(notes[0], k) then 1 else 0) + Count(notes[1..], k)
  }

  lemma {:induction false} CountConcat(a: seq<Note>, b: seq<Note>, k: Kind)
    ensures Count(a + b, k) == Count(a, k) + Count(b, k)
  {
    if a == [] {
      assert a + b == b;
    } else {
      assert (a + b)[0] == a[0] && (a + b)[1..] == a[1..] + b;
      CountConcat(a[1..], b, k);
    }
  }

  function One(b: bool): nat { if b then 1 else 0 }

  predicate AtPc(notes: seq<Note>) {
    forall n :: n in notes && n.Accepted? ==> n.i.cs == n.cs && n.i.eip == n.eip
  }

  /** The books between a state and a later one, with what was noted between:
      accepted issues are run, cut short, or pending; a squash is paid for by
      a fault; the reference has run what was noted; and every issue accepted
      was at the reference's program counter. */
  predicate Balanced<R>(p: Reference<R>, h: Host<R>, notes: seq<Note>, after: Host<R>) {
    && Count(notes, Accepts) + One(h.haveCur)
       == Count(notes, Steps) + Count(notes, Restarts) + Count(notes, LostPendings) + One(after.haveCur)
    && p.ran(after.r) == p.ran(h.r) + Count(notes, Steps) + Count(notes, Interrupts) + Count(notes, FetchSteps)
    && Count(notes, Squashes) + One(after.squashOk) <= Count(notes, Faults) + One(h.squashOk)
    && |h.vectors| == |after.vectors| + Count(notes, Interrupts) + Count(notes, LostVectors)
    && |h.issues| == |after.issues| + Count(notes, Accepts) + Count(notes, Squashes) + Count(notes, LostIssues)
    && AtPc(notes)
  }

  lemma BalancedAdds<R>(p: Reference<R>, a: Host<R>, m: seq<Note>, b: Host<R>, n: seq<Note>, c: Host<R>)
    requires Balanced(p, a, m, b) && Balanced(p, b, n, c)
    ensures Balanced(p, a, m + n, c)
  {
    forall k
      ensures Count(m + n, k) == Count(m, k) + Count(n, k)
    {
      CountConcat(m, n, k);
    }
    hide Count;
  }

  lemma CountOne(n: Note, k: Kind)
    ensures Count([n], k) == One(Is(n, k)) && Count([], k) == 0
  {
    assert Count([n][1..], k) == 0;
  }

  lemma CutBalanced<R(!new)>(p: Reference<R>, h: Host<R>)
    ensures Balanced(p, h, CutShort(p, h).notes, CutShort(p, h).h)
  {
    forall n, k
      ensures Count([n], k) == One(Is(n, k)) && Count([], k) == 0
    {
      CountOne(n, k);
    }
    hide Count;
  }

  lemma RunBalanced<R(!new)>(p: Reference<R>, h: Host<R>, i: Issue)
    requires Lawful(p)
    ensures var t := RunCurrent(p, h, i);
            && (t.what != Diverged ==> Balanced(p, h, t.notes, t.h))
            && (t.what == GoOn ==> !t.h.haveCur)
  {
    forall n, k
      ensures Count([n], k) == One(Is(n, k)) && Count([], k) == 0
    {
      CountOne(n, k);
    }
    hide Count;
  }

  lemma VectorBalanced<R(!new)>(p: Reference<R>, h: Host<R>, i: Issue)
    requires Lawful(p)
    ensures var t := TakeVector(p, h, i);
            t.what == GoOn ==> Balanced(p, h, t.notes, t.h) && t.h.haveCur == h.haveCur
  {
    forall n, k
      ensures Count([n], k) == One(Is(n, k)) && Count([], k) == 0
    {
      CountOne(n, k);
    }
    hide Count;
  }

  lemma FetchBalanced<R(!new)>(p: Reference<R>, h: Host<R>, i: Issue)
    requires Lawful(p) && !h.haveCur
    ensures var t := FetchFaults(p, h, i);
            t.what == GoOn ==> Balanced(p, h, t.notes, t.h) && SamePc(p, t.h.r, i) && t.h == h.(r := t.h.r)
  {
    forall n, k
      ensures Count([n], k) == One(Is(n, k)) && Count([], k) == 0
    {
      CountOne(n, k);
    }
    hide Count;
  }

  lemma AcceptBalanced<R(!new)>(p: Reference<R>, h: Host<R>, i: Issue)
    requires Lawful(p) && !h.haveCur && SamePc(p, h.r, i)
    requires Whole(h) && h.issues != [] && h.issues[0] == i
    ensures var t := Accept(p, h, i); t.what == GoOn ==> Balanced(p, h, t.notes, t.h)
  {
    forall n, k
      ensures Count([n], k) == One(Is(n, k)) && Count([], k) == 0
    {
      CountOne(n, k);
    }
    hide Count, CheckFrom;
  }

  lemma DisposeBalanced<R(!new)>(p: Reference<R>, h: Host<R>, i: Issue)
    requires Lawful(p) && !h.haveCur
    requires Whole(h) && h.issues != [] && h.issues[0] == i
    ensures var t := Dispose(p, h, i); t.what == GoOn ==> Balanced(p, h, t.notes, t.h)
  {
    if !SamePc(p, h.r, i) && h.squashOk {
      forall k
        ensures Count([Squashed(i)], k) == One(Is(Squashed(i), k))
      {
        CountOne(Squashed(i), k);
      }
    } else {
      hide Balanced, Count, Accept, FetchFaults;
      FetchBalanced(p, h, i);
      var f := FetchFaults(p, h, i);
      if f.what == GoOn {
        AcceptBalanced(p, f.h, i);
        var a := Accept(p, f.h, i);
        if a.what == GoOn {
          BalancedAdds(p, h, f.notes, f.h, a.notes, a.h);
        }
      }
    }
  }

  lemma TakeOneBalanced<R(!new)>(p: Reference<R>, h: Host<R>)
    requires Lawful(p) && Whole(h) && h.issues != []
    ensures var t := TakeOne(p, h); t.what != Diverged ==> Balanced(p, h, t.notes, t.h)
  {
    hide Balanced, Lawful, Dispose, SamePc;
    var i := h.issues[0];
    var a := CutShort(p, h);
    var b := RunCurrent(p, a.h, i);
    CutBalanced(p, h);
    RunBalanced(p, a.h, i);
    if b.what != Diverged {
      BalancedAdds(p, h, a.notes, a.h, b.notes, b.h);
      if b.what == GoOn {
        var c := TakeVector(p, b.h, i);
        VectorBalanced(p, b.h, i);
        if c.what == GoOn {
          BalancedAdds(p, h, a.notes + b.notes, b.h, c.notes, c.h);
          DisposeBalanced(p, c.h, i);
          var d := Dispose(p, c.h, i);
          if d.what == GoOn {
            BalancedAdds(p, h, a.notes + b.notes + c.notes, c.h, d.notes, d.h);
          }
        }
      }
    }
  }

  lemma NothingBalanced<R>(p: Reference<R>, h: Host<R>)
    ensures Balanced(p, h, [], h)
  {
  }

  /** Whatever is queued, as long as no divergence is reported the books
      balance. */
  lemma {:induction false} ProcessBalanced<R(!new)>(p: Reference<R>, h: Host<R>)
    requires Lawful(p) && Whole(h)
    ensures var t := Process(p, h); t.what != Diverged ==> Balanced(p, h, t.notes, t.h)
    decreases |h.issues|
  {
    hide Balanced, TakeOne, Lawful;
    if h.issues == [] {
      NothingBalanced(p, h);
    } else {
      TakeOneBalanced(p, h);
      var t := TakeOne(p, h);
      if t.what == GoOn {
        ProcessBalanced(p, t.h);
        var rest := Process(p, t.h);
        if rest.what != Diverged {
          BalancedAdds(p, h, t.notes, t.h, rest.notes, rest.h);
        }
      }
    }
  }

  // ---- Whole runs ----

  /** What reaches the checker: an issue, an interrupt vector, the cut of the
      instruction under way, anything that changes the reference without
      running it, such as read data or a DMA write, or a reset of both CPUs. */
  datatype Arrival<R> = Issued(i: Issue) | Acknowledged(v: Byte) | Cut | Touched(r: R) | Reset(r: R)

  predicate Proper<R>(p: Reference<R>, h: Host<R>, a: Arrival<R>) {
    && (a.Issued? ==> |a.i.gpr| == REGISTERS)
    && (a.Touched? || a.Reset? ==> p.ran(a.r) == p.ran(h.r))
  }

  function Arrive<R>(h: Host<R>, a: Arrival<R>): Host<R> {
    match a
    case Issued(i) => h.(issues := h.issues + [i])
    case Acknowledged(v) => h.(vectors := h.vectors + [v])
    case Cut => if h.haveCur then h.(restarted := true) else h
    case Touched(r) => h.(r := r)
    case Reset(r) => h.(r := r, issues := [], vectors := [], haveCur := false, squashOk := false)
  }

  /** What is noted of an arrival: that a cut came; what a reset drops, and the
      reset. The cut of the pending instruction and the counts of mismatches
      outlive a reset, all else does not. */
  function Noted<R>(h: Host<R>, a: Arrival<R>): seq<Note> {
    match a
    case Cut => [CutCame]
    case Reset(_) => Dropped(h) + [WasReset]
    case _ => []
  }

  function Dropped<R>(h: Host<R>): seq<Note> {
    IssuesLost(h.issues) + VectorsLost(h.vectors) + (if h.haveCur then [LostPending] else [])
  }

  function IssuesLost(issues: seq<Issue>): (notes: seq<Note>)
    ensures |notes| == |issues| && forall k :: 0 <= k < |notes| ==> notes[k] == LostIssue(issues[k])
  {
    seq<Note>(|issues|, k requires 0 <= k < |issues| => LostIssue(issues[k]))
  }

  function VectorsLost(vectors: seq<Byte>): (notes: seq<Note>)
    ensures |notes| == |vectors| && forall k :: 0 <= k < |notes| ==> notes[k] == LostVector(vectors[k])
  {
    seq<Note>(|vectors|, k requires 0 <= k < |vectors| => LostVector(vectors[k]))
  }

  /** The checker after some arrivals, each followed by a try at what is
      queued; it stops at the first divergence. */
  function Follow<R>(p: Reference<R>, h: Host<R>, arrivals: seq<Arrival<R>>): (t: Turn<R>)
    requires Whole(h)
    ensures Whole(t.h)
    decreases arrivals
  {
    if arrivals == [] then Turn(h, [], GoOn)
    else if !Proper(p, h, arrivals[0]) then Turn(h, [], Diverged)
    else
      var t := Process(p, Arrive(h, arrivals[0]));
      if t.what == Diverged then t
      else
        var rest := Follow(p, t.h, arrivals[1..]);
        Turn(rest.h, Noted(h, arrivals[0]) + t.notes + rest.notes, rest.what)
  }

  function IssueCount<R>(arrivals: seq<Arrival<R>>): nat {
    if arrivals == [] then 0 else (if arrivals[0].Issued? then 1 else 0) + IssueCount(arrivals[1..])
  }

  function VectorCount<R>(arrivals: seq<Arrival<R>>): nat {
    if arrivals == [] then 0 else (if arrivals[0].Acknowledged? then 1 else 0) + VectorCount(arrivals[1..])
  }

  /** The books of a whole run: every issue that came is accepted, squashed,
      dropped or queued; every vector is delivered, dropped or queued. */
  predicate Settled<R>(p: Reference<R>, h: Host<R>, arrivals: seq<Arrival<R>>, notes: seq<Note>, after: Host<R>) {
    && Count(notes, Accepts) + One(h.haveCur)
       == Count(notes, Steps) + Count(notes, Restarts) + Count(notes, LostPendings) + One(after.haveCur)
    && p.ran(after.r) == p.ran(h.r) + Count(notes, Steps) + Count(notes, Interrupts) + Count(notes, FetchSteps)
    && Count(notes, Squashes) + One(after.squashOk) <= Count(notes, Faults) + One(h.squashOk)
    && |h.vectors| + VectorCount(arrivals) == |after.vectors| + Count(notes, Interrupts) + Count(notes, LostVectors)
    && |h.issues| + IssueCount(arrivals)
       == |after.issues| + Count(notes, Accepts) + Count(notes, Squashes) + Count(notes, LostIssues)
    && AtPc(notes)
  }

  lemma OneArrival<R>(p: Reference<R>, h: Host<R>, arrivals: seq<Arrival<R>>, m: seq<Note>, b: Host<R>,
        n: seq<Note>, c: Host<R>)
    requires arrivals != [] && Proper(p, h, arrivals[0])
    requires Balanced(p, Arrive(h, arrivals[0]), m, b) && Settled(p, b, arrivals[1..], n, c)
    ensures Settled(p, h, arrivals, Noted(h, arrivals[0]) + m + n, c)
  {
    hide Count, Noted, AtPc;
    CountThree(Noted(h, arrivals[0]), m, n);
    NotedCounts(h, arrivals[0]);
  }

  lemma CountThree(d: seq<Note>, m: seq<Note>, n: seq<Note>)
    ensures forall k :: Count(d + m + n, k) == Count(d, k) + Count(m, k) + Count(n, k)
    ensures AtPc(d + m + n) <==> AtPc(d) && AtPc(m) && AtPc(n)
  {
    forall k
      ensures Count(d + m + n, k) == Count(d, k) + Count(m, k) + Count(n, k)
    {
      CountConcat(d, m, k);
      CountConcat(d + m, n, k);
    }
    AtPcConcat(d, m);
    AtPcConcat(d + m, n);
  }

  lemma AtPcConcat(m: seq<Note>, n: seq<Note>)
    ensures AtPc(m + n) <==> AtPc(m) && AtPc(n)
  {
    assert forall x :: x in m || x in n <==> x in m + n;
  }

  lemma {:induction false} CountSame(notes: seq<Note>, k: Kind, yes: bool)
    requires forall n :: n in notes ==> Is(n, k) == yes
    ensures Count(notes, k) == if yes then |notes| else 0
  {
    if notes != [] {
      assert notes[0] in notes;
      CountSame(notes[1..], k, yes);
    }
  }

  lemma NotedCounts<R>(h: Host<R>, a: Arrival<R>)
    ensures forall k ::
              Count(Noted(h, a), k)
              == (if !a.Reset? then 0
                  else if k.LostIssues? then |h.issues|
                  else if k.LostVectors? then |h.vectors|
                  else if k.LostPendings? then One(h.haveCur) else 0)
    ensures AtPc(Noted(h, a))
  {
    hide Count, AtPc, Dropped;
    CountNothing();
    if a.Cut? {
      forall k ensures Count([CutCame], k) == 0 {
        CountOne(CutCame, k);
      }
      AtPcOne(CutCame);
    } else if a.Reset? {
      DroppedCounts(h);
      forall k ensures Count(Dropped(h) + [WasReset], k) == Count(Dropped(h), k) {
        CountOne(WasReset, k);
        CountConcat(Dropped(h), [WasReset], k);
      }
      AtPcOne(WasReset);
      AtPcConcat(Dropped(h), [WasReset]);
    }
  }

  lemma CountNothing()
    ensures (forall k :: Count([], k) == 0) && AtPc([])
  {
  }

  lemma AtPcOne(n: Note)
    requires !n.Accepted?
    ensures AtPc([n])
  {
  }

  lemma DroppedCounts<R>(h: Host<R>)
    ensures forall k ::
              Count(Dropped(h), k)
              == (if k.LostIssues? then |h.issues|
                  else if k.LostVectors? then |h.vectors|
                  else if k.LostPendings? then One(h.haveCur) else 0)
    ensures AtPc(Dropped(h))
  {
    var issues, vectors := IssuesLost(h.issues), VectorsLost(h.vectors);
    forall k
      ensures Count(Dropped(h), k)
              == (if k.LostIssues? then |h.issues|
                  else if k.LostVectors? then |h.vectors|
                  else if k.LostPendings? then One(h.haveCur) else 0)
    {
      CountOne(LostPending, k);
      CountSame(issues, k, k.LostIssues?);
      CountSame(vectors, k, k.LostVectors?);
      CountConcat(issues, vectors, k);
      CountConcat(issues + vectors, if h.haveCur then [LostPending] else [], k);
    }
  }

  lemma NothingSettled<R>(p: Reference<R>, h: Host<R>)
    ensures Settled(p, h, [], [], h)
  {
  }

  /** Over every run without a divergence the books balance. */
  lemma {:induction false} RunsBalance<R(!new)>(p: Reference<R>, h: Host<R>, arrivals: seq<Arrival<R>>)
    requires Lawful(p) && Whole(h)
    ensures var t := Follow(p, h, arrivals); t.what != Diverged ==> Settled(p, h, arrivals, t.notes, t.h)
    decreases arrivals
  {
    hide Lawful, Balanced, Settled, Process;
    if arrivals == [] {
      NothingSettled(p, h);
    } else if Proper(p, h, arrivals[0]) {
      var h1 := Arrive(h, arrivals[0]);
      ProcessBalanced(p, h1);
      var t := Process(p, h1);
      if t.what != Diverged {
        RunsBalance(p, t.h, arrivals[1..]);
        var rest := Follow(p, t.h, arrivals[1..]);
        if rest.what != Diverged {
          OneArrival(p, h, arrivals, t.notes, t.h, rest.notes, rest.h);
        }
      }
    }
  }

  /** From a checker that has just started, through any resets: the issues
      taken from the queue are those run, cut short, squashed, dropped, and the
      one pending; the reference has run what was stepped, the interrupts and
      the faulting fetches; and no more issues have been squashed than faults
      delivered. */
  lemma IssuesAreConserved<R(!new)>(p: Reference<R>, r: R, miss: seq<nat>, arrivals: seq<Arrival<R>>)
    requires Lawful(p) && |miss| == REGISTERS
    ensures var start := Host(r, [], [], false, false, false, miss);
            var t := Follow(p, start, arrivals);
            t.what != Diverged ==>
              && IssueCount(arrivals) - |t.h.issues|
                 == Count(t.notes, Steps) + Count(t.notes, Restarts) + Count(t.notes, Squashes) + One(t.h.haveCur)
                    + Count(t.notes, LostPendings) + Count(t.notes, LostIssues)
              && p.ran(t.h.r) - p.ran(r)
                 == Count(t.notes, Steps) + Count(t.notes, Interrupts) + Count(t.notes, FetchSteps)
              && Count(t.notes, Squashes) <= Count(t.notes, Faults) <= Count(t.notes, Steps)
              && VectorCount(arrivals) - |t.h.vectors| == Count(t.notes, Interrupts) + Count(t.notes, LostVectors)
              && AtPc(t.notes)
  {
    var start := Host(r, [], [], false, false, false, miss);
    RunsBalance(p, start, arrivals);
    FaultsAreSteps(Follow(p, start, arrivals).notes);
    hide Lawful, Follow, Count, IssueCount, VectorCount;
  }

  // ---- A cut that a reset leaves behind ----

  /** The checker after a reset to r and the first issue i from there. */
  function Restart<R>(p: Reference<R>, h: Host<R>, r: R, i: Issue): (h': Host<R>)
    requires Whole(h) && |i.gpr| == REGISTERS
    ensures Whole(h')
  {
    Process(p, Arrive(Process(p, Arrive(h, Reset(r))).h, Arrival.Issued(i))).h
  }

  /** A reset does not clear the cut of the pending instruction, and the first
      issue after it is taken for the one cut: when the second comes, the
      reference has run the first if and only if nothing had been cut before
      the reset. If something had, a second issue elsewhere is reported,
      unless the first instruction faults on its way there. */
  lemma CutOutlivesReset<R(!new)>(p: Reference<R>, h: Host<R>, r: R, i: Issue, j: Issue)
    requires Whole(h) && |i.gpr| == REGISTERS == |j.gpr|
    requires SamePc(p, r, i) && !p.atRep(r) && CheckFrom(i.gpr, Registers(p, r), h.miss, 0).1
    ensures var h1 := Arrive(Restart(p, h, r, i), Arrival.Issued(j));
            && h1.r == r && h1.haveCur && h1.issues == [j] && h1.vectors == []
            && CutShort(p, h1).notes == (if h.restarted then [Restarted] else [])
            && RunCurrent(p, CutShort(p, h1).h, j).h.r
               == (if h.restarted || p.step(r).Error? then r
                   else if p.step(r).Stalled? then p.step(r).r else p.adopt(p.step(r).r, j.eflags))
            && (h.restarted && !SamePc(p, r, j) ==>
                  (Process(p, h1).what == Diverged
                   <==> p.step(r).Error? || !p.faulted(p.step(r).r) || !SamePc(p, p.step(r).r, j)
                        || !CheckFrom(j.gpr, Registers(p, p.step(r).r), h1.miss, 0).1))
  {
    hide CheckFrom, Process, SamePc, Restart, Registers;
    RestartIs(p, h, r, i);
    var h1 := Arrive(Restart(p, h, r, i), Arrival.Issued(j));
    assert [] + [j] == [j] && h1.vectors == [];
    if h.restarted && !SamePc(p, r, j) {
      SecondIssue(p, h1, j);
    }
  }

  lemma RestartIs<R>(p: Reference<R>, h: Host<R>, r: R, i: Issue)
    requires Whole(h) && |i.gpr| == REGISTERS
    requires SamePc(p, r, i) && CheckFrom(i.gpr, Registers(p, r), h.miss, 0).1
    ensures Restart(p, h, r, i)
         == Host(r, [], [], true, false, h.restarted, CheckFrom(i.gpr, Registers(p, r), h.miss, 0).0)
  {
    hide CheckFrom, SamePc, Registers;
    var h0 := Arrive(h, Reset(r));
    var h1 := Arrive(h0, Arrival.Issued(i));
    assert Process(p, h0) == Turn(h0, [], GoOn);
    assert h1.issues == [i] && [i][1..] == [];
    var t := TakeOne(p, h1);
    assert Process(p, t.h).h == t.h;
  }

  lemma SecondIssue<R>(p: Reference<R>, h: Host<R>, j: Issue)
    requires Whole(h) && h.issues == [j] && h.vectors == []
    requires h.haveCur && h.restarted && !p.atRep(h.r) && !SamePc(p, h.r, j)
    ensures Process(p, h).what == Diverged
       <==> p.step(h.r).Error? || !p.faulted(p.step(h.r).r) || !SamePc(p, p.step(h.r).r, j)
            || !CheckFrom(j.gpr, Registers(p, p.step(h.r).r), h.miss, 0).1
  {
    hide CheckFrom, SamePc, Registers;
    var a := CutShort(p, h).h;
    assert RunCurrent(p, a, j) == Turn(a, [], GoOn) && TakeVector(p, a, j) == Turn(a, [], GoOn);
    assert TakeOne(p, h).what == Dispose(p, a, j).what;
    var t := TakeOne(p, h);
    if t.what == GoOn {
      assert t.h.issues == [j][1..] == [];
      assert Process(p, t.h).what == GoOn;
    }
  }

  lemma {:induction false} FaultsAreSteps(notes: seq<Note>)
    ensures Count(notes, Faults) <= Count(notes, Steps)
  {
    if notes != [] {
      FaultsAreSteps(notes[1..]);
    }
  }

  // ---- The register check over a run ----

  /** z486's and the reference's registers at one accepted issue. */
  datatype Sample = Sample(gpr: seq<Word32>, refs: seq<Word32>)

  predicate Samples(s: seq<Sample>) {
    forall x :: x in s ==> |x.gpr| == REGISTERS && |x.refs| == REGISTERS
  }

  /** The counters after a run of checks, and whether none has failed. */
  function CheckAll(s: seq<Sample>): (r: (seq<nat>, bool))
    requires Samples(s)
    ensures |r.0| == REGISTERS
  {
    if s == [] then (seq(REGISTERS, _ => 0), true)
    else
      var was := CheckAll(s[..|s| - 1]);
      if !was.1 then was else CheckFrom(s[|s| - 1].gpr, s[|s| - 1].refs, was.0, 0)
  }

  /** The issues in a row, up to now, at which register k differed. */
  function Streak(s: seq<Sample>, k: nat): nat
    requires Samples(s) && k < REGISTERS
  {
    if s == [] || s[|s| - 1].gpr[k] == s[|s| - 1].refs[k] then 0 else 1 + Streak(s[..|s| - 1], k)
  }

  function Missed(gpr: seq<Word32>, refs: seq<Word32>, miss: seq<nat>, k: nat): nat
    requires |gpr| == |refs| == |miss| && k < |miss|
  {
    if gpr[k] == refs[k] then 0 else miss[k] + 1
  }

  /** A check passes when no register's row reaches the limit, and then every
      counter has followed its register. */
  lemma {:induction false} CheckIs(gpr: seq<Word32>, refs: seq<Word32>, miss: seq<nat>, k: nat)
    requires |gpr| == |refs| == |miss| && k <= |miss|
    ensures var r := CheckFrom(gpr, refs, miss, k);
            && (r.1 <==> forall j :: k <= j < |miss| ==> Missed(gpr, refs, miss, j) < PERSIST)
            && (r.1 ==> forall j :: 0 <= j < |miss| ==>
                  r.0[j] == if j < k then miss[j] else Missed(gpr, refs, miss, j))
    decreases |miss| - k
  {
    if k < |miss| {
      var missed := miss[k := Missed(gpr, refs, miss, k)];
      CheckIs(gpr, refs, missed, k + 1);
      forall j | k < j < |miss|
        ensures Missed(gpr, refs, missed, j) == Missed(gpr, refs, miss, j)
      {
      }
    }
  }

  /** While no check has failed, each counter is its register's row of
      mismatches. */
  lemma {:induction false} CountersAreStreaks(s: seq<Sample>)
    requires Samples(s) && CheckAll(s).1
    ensures forall k :: 0 <= k < REGISTERS ==> CheckAll(s).0[k] == Streak(s, k)
  {
    if s != [] {
      var was, x := CheckAll(s[..|s| - 1]), s[|s| - 1];
      CountersAreStreaks(s[..|s| - 1]);
      CheckIs(x.gpr, x.refs, was.0, 0);
    }
  }

  /** A divergence is reported at an issue exactly when, there, some register
      has differed at 64 issues in a row. */
  lemma RegistersDivergeIff(s: seq<Sample>, x: Sample)
    requires Samples(s + [x]) && CheckAll(s).1
    ensures !CheckAll(s + [x]).1 <==> exists k: nat :: k < REGISTERS && Streak(s + [x], k) >= PERSIST
  {
    var all, miss := s + [x], CheckAll(s).0;
    assert all[..|all| - 1] == s && x in all;
    CountersAreStreaks(s);
    CheckIs(x.gpr, x.refs, miss, 0);
    forall k: nat | k < REGISTERS
      ensures Streak(all, k) == Missed(x.gpr, x.refs, miss, k)
    {
      StreakIs(s, x, k);
    }
    assert CheckAll(all) == CheckFrom(x.gpr, x.refs, miss, 0);
    Lasting(all, x, miss, CheckAll(all).1);
  }

  lemma StreakIs(s: seq<Sample>, x: Sample, k: nat)
    requires Samples(s + [x]) && Samples(s) && k < REGISTERS
    ensures Streak(s + [x], k) == if x.gpr[k] == x.refs[k] then 0 else 1 + Streak(s, k)
  {
    assert (s + [x])[..|s|] == s;
  }

  lemma Lasting(all: seq<Sample>, x: Sample, miss: seq<nat>, ok: bool)
    requires Samples(all) && |x.gpr| == |x.refs| == |miss| == REGISTERS
    requires forall k: nat :: k < REGISTERS ==> Streak(all, k) == Missed(x.gpr, x.refs, miss, k)
    requires ok <==> forall j :: 0 <= j < REGISTERS ==> Missed(x.gpr, x.refs, miss, j) < PERSIST
    ensures !ok <==> exists k: nat :: k < REGISTERS && Streak(all, k) >= PERSIST
  {
    hide Streak, Missed;
    if !ok {
      var j: nat :| j < REGISTERS && Missed(x.gpr, x.refs, miss, j) >= PERSIST;
      assert Streak(all, j) >= PERSIST;
    }
  }
}
