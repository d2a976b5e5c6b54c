/** Stall transparency: a step retried until z486 has returned all its data
    ends as one step given all of it at once. */
module Retries {
  import opened Platform
  import opened EventQueue
  import opened WriteMatcher
  import opened Paging
  import opened Speculation
  import opened Rollback

  // ---- The first device byte a step reads ----

  datatype First = None | Device(phys: Word32)

  predicate InWindow(phys: int) {
    DEV_LO <= phys < DEV_HI
  }

  function FirstInRead(env: Env, s: Sim, lin: Word32, n: nat, i: nat): First
    requires Good(env, s) && i <= n
    decreases n - i
  {
    if i == n || s.cpu.abrt != 0 then None
    else
      match Walk(s.cpu, s.ram, env.a20, At(lin, i), false)
      case PageFault(_) => None
      case Frame(phys) => if InWindow(phys) then Device(phys) else FirstInRead(env, s, lin, n, i + 1)
  }

  function FirstInExec(env: Env, p: Program, s: Sim, left: nat): First
    requires Good(env, s)
    decreases left
  {
    var a := p.act(s.cpu);
    if left == 0 || a.Stop? then None
    else
      var f := if a.Read? then FirstInRead(env, s, a.lin, a.n, 0) else None;
      if f.Device? then f else FirstInExec(env, p, Perform(env, p, s, a), left - 1)
  }

  /** The state the handler's entry starts from. */
  function Delivering(env: Env, i: Instr, r: Ref): (s: Sim)
    requires Sane(env, r)
    ensures Good(env, s)
  {
    var f := FaultState(env, i, r);
    f.(cpu := f.cpu.(abrt := 0), log := [])
  }

  /** The first device byte of a step: its instruction's, or if that reads
      none and faults, its handler's entry's. */
  function FirstDevice(env: Env, i: Instr, r: Ref): First
    requires Sane(env, r)
  {
    var f := FirstInExec(env, i.body, Begin(env, r), i.body.length);
    var s := Attempt(env, i, r);
    if f.Device? || s.stall || s.cpu.abrt == 0 then f
    else
      var p := i.deliver(s.cpu.abrt);
      FirstInExec(env, p, Delivering(env, i, r), p.length)
  }

  /** Whether the last device byte read was `last` or `other` makes no
      difference to what is skipped before the byte at phys: there is nothing
      to skip, or as much for both. */
  predicate SkipsAlike(devRd: seq<Write>, phys: int, last: int, other: int) {
    devRd == [] || devRd[0].addr == phys || (devRd[0].addr == last <==> devRd[0].addr == other)
  }

  predicate Alike(env: Env, i: Instr, r: Ref, last: int)
    requires Sane(env, r)
  {
    var f := FirstDevice(env, i, r);
    f.Device? ==> SkipsAlike(env.devRd, f.phys, r.devLast, last)
  }

  lemma SkipsAlikeIff(devRd: seq<Write>, phys: int, last: int, other: int)
    ensures SkipsAlike(devRd, phys, last, other)
       <==> SkipReplays(devRd, 0, phys, last) == SkipReplays(devRd, 0, phys, other)
  {
  }

  // ---- Two runs that differ in the last device read ----

  /** The same but for the last device byte read. */
  predicate Same(s: Sim, t: Sim) {
    t == s.(devLast := t.devLast)
  }

  /** And that will not matter any more: it is the same, or all of z486's
      data have been used. */
  predicate Settled(env: Env, s: Sim, t: Sim) {
    Same(s, t) && (s == t || s.devCur == |env.devRd|)
  }

  lemma {:induction false} SettledRead(env: Env, s: Sim, t: Sim, lin: Word32, n: nat, got: seq<Byte>)
    requires Good(env, s) && Settled(env, s, t) && |got| <= n
    ensures var g, h := ReadN(env, s, lin, n, got), ReadN(env, t, lin, n, got);
            Settled(env, g.s, h.s) && g.resp == h.resp
    decreases n - |got|
  {
    if |got| < n && s.cpu.abrt == 0 {
      match Walk(s.cpu, s.ram, env.a20, At(lin, |got|), false) {
        case PageFault(_) =>
        case Frame(phys) =>
          var r, q := ReadByte(env, s, phys), ReadByte(env, t, phys);
          SettledRead(env, r.0, q.0, lin, n, got + [r.1]);
      }
    }
  }

  lemma ByteAlike(env: Env, s: Sim, t: Sim, phys: Word32)
    requires Good(env, s) && Same(s, t) && s.devCur == 0
    ensures var r, q := ReadByte(env, s, phys), ReadByte(env, t, phys);
            if InWindow(phys) then
              SkipsAlike(env.devRd, phys, s.devLast, t.devLast) ==> Settled(env, r.0, q.0) && r.1 == q.1
            else r.0 == s && q.0 == t && r.1 == q.1
  {
    SkipsAlikeIff(env.devRd, phys, s.devLast, t.devLast);
  }

  /** Reads of RAM alone change nothing; a first device byte that is skipped
      to alike settles the two runs. */
  lemma {:induction false} FirstRead(env: Env, s: Sim, t: Sim, lin: Word32, n: nat, got: seq<Byte>)
    requires Good(env, s) && Same(s, t) && |got| <= n && s.devCur == 0
    ensures var f := FirstInRead(env, s, lin, n, |got|);
            var g, h := ReadN(env, s, lin, n, got), ReadN(env, t, lin, n, got);
            && f == FirstInRead(env, t, lin, n, |got|)
            && (f.None? ==> Same(g.s, h.s) && g.resp == h.resp && g.s.devCur == 0 && g.s.devLast == s.devLast)
            && (f.None? ==> h.s.devLast == t.devLast && g.s.failed == s.failed)
            && (f.Device? && SkipsAlike(env.devRd, f.phys, s.devLast, t.devLast) ==>
                  Settled(env, g.s, h.s) && g.resp == h.resp)
    decreases n - |got|
  {
    hide ReadByte, SkipsAlike, Walk;
    if |got| < n && s.cpu.abrt == 0 {
      match Walk(s.cpu, s.ram, env.a20, At(lin, |got|), false) {
        case PageFault(_) =>
        case Frame(phys) =>
          var r, q := ReadByte(env, s, phys), ReadByte(env, t, phys);
          ByteAlike(env, s, t, phys);
          if !InWindow(phys) {
            FirstRead(env, r.0, q.0, lin, n, got + [r.1]);
          } else if SkipsAlike(env.devRd, phys, s.devLast, t.devLast) {
            SettledRead(env, r.0, q.0, lin, n, got + [r.1]);
          }
      }
    }
  }

  lemma {:induction false} InSame(env: Env, s: Sim, t: Sim, port: Word16, n: nat, got: seq<Byte>)
    requires Good(env, s) && Same(s, t) && |got| <= n
    ensures var g, h := InN(env, s, port, n, got), InN(env, t, port, n, got);
            Moved(s, t, g.s, h.s) && g.resp == h.resp
    decreases n - |got|
  {
    if |got| < n && s.ioCur < |env.ioRd| {
      var e := env.ioRd[s.ioCur];
      var failed := s.failed || e.addr != (port + |got|) % 0x1_0000;
      InSame(env, s.(ioCur := s.ioCur + 1, failed := failed), t.(ioCur := t.ioCur + 1, failed := failed), port, n,
             got + [e.val]);
    }
  }

  /** Both moved to the same state but for the device reads, which stay. */
  predicate Moved(s: Sim, t: Sim, s': Sim, t': Sim) {
    Same(s', t') && s'.devCur == s.devCur && s'.devLast == s.devLast && t'.devLast == t.devLast
  }

  lemma {:induction false} EachSame(env: Env, s: Sim, t: Sim, pas: seq<Word32>, bytes: seq<Byte>)
    requires Good(env, s) && Same(s, t) && |pas| == |bytes|
    ensures Moved(s, t, StoreEach(env, s, pas, bytes), StoreEach(env, t, pas, bytes))
    decreases pas
  {
    if pas != [] {
      EachSame(env, StoreLogged(env, s, pas[0], bytes[0]), StoreLogged(env, t, pas[0], bytes[0]), pas[1..], bytes[1..]);
    }
  }

  lemma {:induction false} PartialSame(env: Env, s: Sim, t: Sim, pas: seq<Word32>, bytes: seq<Byte>)
    requires Good(env, s) && Same(s, t) && |pas| <= |bytes|
    ensures Moved(s, t, StorePartial(env, s, pas, bytes), StorePartial(env, t, pas, bytes))
    decreases pas
  {
    if pas != [] && |s.partial| < MAX_PARTIAL {
      var w := [Write(pas[0], bytes[0])];
      var s1, t1 := StoreLogged(env, s, pas[0], bytes[0]), StoreLogged(env, t, pas[0], bytes[0]);
      PartialSame(env, s1.(partial := s1.partial + w), t1.(partial := t1.partial + w), pas[1..], bytes[1..]);
    }
  }

  lemma WriteSame(env: Env, s: Sim, t: Sim, lin: Word32, bytes: seq<Byte>)
    requires Good(env, s) && Same(s, t)
    ensures Moved(s, t, WriteN(env, s, lin, bytes), WriteN(env, t, lin, bytes))
  {
    match TranslateAll(env, s.cpu, s.ram, lin, |bytes|, true, []) {
      case Pages(pas) => EachSame(env, s, t, pas, bytes);
      case FaultAt(pas, cpu) => PartialSame(env, s.(cpu := cpu), t.(cpu := cpu), pas, bytes);
    }
  }

  /** An access that reads no device byte. */
  lemma OtherSame(env: Env, p: Program, s: Sim, t: Sim, a: Action)
    requires Good(env, s) && Same(s, t) && !a.Read?
    ensures Moved(s, t, Perform(env, p, s, a), Perform(env, p, t, a))
  {
    match a
    case In(port, size) => InSame(env, s, t, port, size, []);
    case Store(lin, bytes) => WriteSame(env, s, t, lin, bytes);
    case _ =>
  }

  lemma SettledPerform(env: Env, p: Program, s: Sim, t: Sim, a: Action)
    requires Good(env, s) && Settled(env, s, t)
    ensures Settled(env, Perform(env, p, s, a), Perform(env, p, t, a))
  {
    if a.Read? {
      SettledRead(env, s, t, a.lin, a.n, []);
    } else {
      OtherSame(env, p, s, t, a);
    }
  }

  lemma {:induction false} SettledExec(env: Env, p: Program, s: Sim, t: Sim, left: nat)
    requires Good(env, s) && Settled(env, s, t)
    ensures Settled(env, Exec(env, p, s, left), Exec(env, p, t, left))
    decreases left
  {
    hide Perform;
    var a := p.act(s.cpu);
    if left > 0 && !a.Stop? {
      SettledPerform(env, p, s, t, a);
      SettledExec(env, p, Perform(env, p, s, a), Perform(env, p, t, a), left - 1);
    }
  }

  lemma FirstPerform(env: Env, p: Program, s: Sim, t: Sim, a: Action)
    requires Good(env, s) && Same(s, t) && s.devCur == 0 && a.Read?
    ensures var f := FirstInRead(env, s, a.lin, a.n, 0);
            var s', t' := Perform(env, p, s, a), Perform(env, p, t, a);
            && f == FirstInRead(env, t, a.lin, a.n, 0)
            && (f.None? ==> Moved(s, t, s', t'))
            && (f.Device? && SkipsAlike(env.devRd, f.phys, s.devLast, t.devLast) ==> Settled(env, s', t'))
  {
    hide ReadN, FirstInRead, SkipsAlike;
    FirstRead(env, s, t, a.lin, a.n, []);
  }

  lemma {:induction false} FirstExec(env: Env, p: Program, s: Sim, t: Sim, left: nat)
    requires Good(env, s) && Same(s, t) && s.devCur == 0
    ensures var f := FirstInExec(env, p, s, left);
            var s', t' := Exec(env, p, s, left), Exec(env, p, t, left);
            && f == FirstInExec(env, p, t, left)
            && (f.None? ==> Moved(s, t, s', t'))
            && (f.Device? && SkipsAlike(env.devRd, f.phys, s.devLast, t.devLast) ==> Settled(env, s', t'))
    decreases left
  {
    hide Perform, FirstInRead, SkipsAlike;
    var a := p.act(s.cpu);
    if left > 0 && !a.Stop? {
      var s1, t1 := Perform(env, p, s, a), Perform(env, p, t, a);
      if a.Read? {
        FirstPerform(env, p, s, t, a);
        var f := FirstInRead(env, s, a.lin, a.n, 0);
        if f.None? {
          FirstExec(env, p, s1, t1, left - 1);
        } else if SkipsAlike(env.devRd, f.phys, s.devLast, t.devLast) {
          SettledExec(env, p, s1, t1, left - 1);
        }
      } else {
        OtherSame(env, p, s, t, a);
        FirstExec(env, p, s1, t1, left - 1);
      }
    }
  }

  // ---- A first device byte that is not the one expected ----

  /** z486's first device read is another than phys, and no repetition. */
  predicate Mismatch(env: Env, phys: int, last: int) {
    env.devRd != [] && env.devRd[0].addr != phys && env.devRd[0].addr != last
  }

  lemma {:induction false} ReadKeepsFailure(env: Env, s: Sim, lin: Word32, n: nat, got: seq<Byte>)
    requires Good(env, s) && |got| <= n && s.failed
    ensures ReadN(env, s, lin, n, got).s.failed
    decreases n - |got|
  {
    hide Walk, SkipReplays;
    if |got| < n && s.cpu.abrt == 0 {
      match Walk(s.cpu, s.ram, env.a20, At(lin, |got|), false) {
        case PageFault(_) =>
        case Frame(phys) =>
          var r := ReadByte(env, s, phys);
          ReadKeepsFailure(env, r.0, lin, n, got + [r.1]);
      }
    }
  }

  lemma {:induction false} InKeepsFailure(env: Env, s: Sim, port: Word16, n: nat, got: seq<Byte>)
    requires Good(env, s) && |got| <= n && s.failed
    ensures InN(env, s, port, n, got).s.failed
    decreases n - |got|
  {
    if |got| < n && s.ioCur < |env.ioRd| {
      InKeepsFailure(env, s.(ioCur := s.ioCur + 1), port, n, got + [env.ioRd[s.ioCur].val]);
    }
  }

  lemma {:induction false} EachKeeps(env: Env, s: Sim, pas: seq<Word32>, bytes: seq<Byte>)
    requires Good(env, s) && |pas| == |bytes|
    ensures var r := StoreEach(env, s, pas, bytes); r.failed == s.failed && r.devCur == s.devCur
    decreases pas
  {
    if pas != [] {
      EachKeeps(env, StoreLogged(env, s, pas[0], bytes[0]), pas[1..], bytes[1..]);
    }
  }

  lemma {:induction false} PartialKeeps(env: Env, s: Sim, pas: seq<Word32>, bytes: seq<Byte>)
    requires Good(env, s) && |pas| <= |bytes|
    ensures var r := StorePartial(env, s, pas, bytes); r.failed == s.failed && r.devCur == s.devCur
    decreases pas
  {
    if pas != [] && |s.partial| < MAX_PARTIAL {
      var s1 := StoreLogged(env, s, pas[0], bytes[0]);
      PartialKeeps(env, s1.(partial := s1.partial + [Write(pas[0], bytes[0])]), pas[1..], bytes[1..]);
    }
  }

  lemma WriteKeeps(env: Env, s: Sim, lin: Word32, bytes: seq<Byte>)
    requires Good(env, s)
    ensures var r := WriteN(env, s, lin, bytes); r.failed == s.failed && r.devCur == s.devCur
  {
    match TranslateAll(env, s.cpu, s.ram, lin, |bytes|, true, []) {
      case Pages(pas) => EachKeeps(env, s, pas, bytes);
      case FaultAt(pas, cpu) => PartialKeeps(env, s.(cpu := cpu), pas, bytes);
    }
  }

  /** A divergence once found stays. */
  lemma {:induction false} ExecKeepsFailure(env: Env, p: Program, s: Sim, left: nat)
    requires Good(env, s) && s.failed
    ensures Exec(env, p, s, left).failed
    decreases left
  {
    hide ReadN, InN, WriteN;
    var a := p.act(s.cpu);
    if left > 0 && !a.Stop? {
      match a {
        case Read(lin, n) => ReadKeepsFailure(env, s, lin, n, []);
        case In(port, size) => InKeepsFailure(env, s, port, size, []);
        case Store(lin, bytes) => WriteKeeps(env, s, lin, bytes);
        case _ =>
      }
      ExecKeepsFailure(env, p, Perform(env, p, s, a), left - 1);
    }
  }

  lemma {:induction false} FirstReadFails(env: Env, s: Sim, lin: Word32, n: nat, got: seq<Byte>)
    requires Good(env, s) && |got| <= n && s.devCur == 0
    requires var f := FirstInRead(env, s, lin, n, |got|); f.Device? && Mismatch(env, f.phys, s.devLast)
    ensures ReadN(env, s, lin, n, got).s.failed
    decreases n - |got|
  {
    hide Walk;
    match Walk(s.cpu, s.ram, env.a20, At(lin, |got|), false) {
      case Frame(phys) =>
        var r := ReadByte(env, s, phys);
        if InWindow(phys) {
          ReadKeepsFailure(env, r.0, lin, n, got + [r.1]);
        } else {
          FirstReadFails(env, r.0, lin, n, got + [r.1]);
        }
    }
  }

  lemma {:induction false} FirstExecFails(env: Env, p: Program, s: Sim, left: nat)
    requires Good(env, s) && s.devCur == 0
    requires var f := FirstInExec(env, p, s, left); f.Device? && Mismatch(env, f.phys, s.devLast)
    ensures Exec(env, p, s, left).failed
    decreases left
  {
    hide FirstInRead, Mismatch, ReadN, WriteN, InN;
    var a := p.act(s.cpu);
    var s1 := Perform(env, p, s, a);
    if a.Read? && FirstInRead(env, s, a.lin, a.n, 0).Device? {
      FirstReadFails(env, s, a.lin, a.n, []);
      ExecKeepsFailure(env, p, s1, left - 1);
    } else {
      if a.Read? {
        FirstPerform(env, p, s, s, a);
      } else {
        OtherSame(env, p, s, s, a);
      }
      FirstExecFails(env, p, s1, left - 1);
    }
  }

  // ---- Two steps that differ in the last device read ----

  /** A verdict without the last device byte read. */
  function Forget(v: Verdict): Verdict {
    match v
    case Stalled(r) => Stalled(r.(devLast := 0))
    case Completed(r, stage, outs, fault) => Completed(r.(devLast := 0), stage, outs, fault)
    case Failed => Failed
  }

  lemma AttemptAlike(env: Env, i: Instr, r: Ref, last: int)
    requires Sane(env, r) && Alike(env, i, r, last)
    ensures Same(Attempt(env, i, r), Attempt(env, i, r.(devLast := last)))
    ensures var f := FirstInExec(env, i.body, Begin(env, r), i.body.length);
            var s, t := Attempt(env, i, r), Attempt(env, i, r.(devLast := last));
            if f.Device? then Settled(env, s, t) else s.devCur == 0 && s.devLast == r.devLast && t.devLast == last
  {
    hide Exec, TranslateAll, SkipsAlike;
    FirstExec(env, i.body, Begin(env, r), Begin(env, r.(devLast := last)), i.body.length);
  }

  lemma ProbeAlike(env: Env, i: Instr, r: Ref, last: int)
    requires Sane(env, r) && Alike(env, i, r, last)
    ensures ProbeFaulted(env, i, r) <==> ProbeFaulted(env, i, r.(devLast := last))
  {
    hide Exec, TranslateAll, SkipsAlike;
    FirstExec(env, i.body, Begin(env, r), Begin(env, r.(devLast := last)), i.body.length);
  }

  lemma DeliveringAlike(env: Env, i: Instr, r: Ref, last: int)
    requires Sane(env, r) && Alike(env, i, r, last)
    requires var s := Attempt(env, i, r); s.cpu.abrt != 0 && !s.stall
    ensures var s := Attempt(env, i, r);
            Same(Deliver(env, i, FaultState(env, i, r), s.cpu.abrt),
                 Deliver(env, i, FaultState(env, i, r.(devLast := last)), s.cpu.abrt))
  {
    hide Exec, TranslateAll, SkipsAlike, StoreAll, Undo, Attempt, ProbeFaulted;
    var q := r.(devLast := last);
    AttemptAlike(env, i, r, last);
    ProbeAlike(env, i, r, last);
    var f, g := Delivering(env, i, r), Delivering(env, i, q);
    var p := i.deliver(Attempt(env, i, r).cpu.abrt);
    assert Same(f, g);
    if FirstInExec(env, i.body, Begin(env, r), i.body.length).Device? {
      SettledExec(env, p, f, g, p.length);
    } else {
      FirstExec(env, p, f, g, p.length);
    }
  }

  /** A step whose first device byte is skipped to alike does the same. */
  lemma RunAlike(env: Env, i: Instr, r: Ref, last: int)
    requires Sane(env, r) && Alike(env, i, r, last)
    ensures Forget(Run(env, i, r.(devLast := last))) == Forget(Run(env, i, r))
  {
    hide Exec, TranslateAll, SkipsAlike, StoreAll, Attempt, Deliver, FaultState, Alike;
    AttemptAlike(env, i, r, last);
    var s := Attempt(env, i, r);
    if s.cpu.abrt != 0 && !s.stall {
      DeliveringAlike(env, i, r, last);
    }
  }

  /** A step that reports a divergence, at once or when it is next tried. */
  predicate Reports(v: Verdict) {
    v.Failed? || (v.Stalled? && v.r.err)
  }

  lemma FirstDeviceSame(env: Env, i: Instr, r: Ref, last: int)
    requires Sane(env, r)
    ensures FirstDevice(env, i, r) == FirstDevice(env, i, r.(devLast := last))
  {
    hide Exec, FirstInExec, TranslateAll, StoreAll, Undo;
    var q := r.(devLast := last);
    FirstExec(env, i.body, Begin(env, r), Begin(env, q), i.body.length);
    if FirstInExec(env, i.body, Begin(env, r), i.body.length).None? {
      var s := Attempt(env, i, r);
      var p := i.deliver(s.cpu.abrt);
      if s.cpu.abrt != 0 && !s.stall {
        assert Same(Delivering(env, i, r), Delivering(env, i, q));
        FirstExec(env, p, Delivering(env, i, r), Delivering(env, i, q), p.length);
      }
    }
  }

  lemma MismatchReports(env: Env, i: Instr, r: Ref)
    requires Sane(env, r)
    requires var f := FirstDevice(env, i, r); f.Device? && Mismatch(env, f.phys, r.devLast)
    ensures Reports(Run(env, i, r))
  {
    hide Exec, FirstInExec, TranslateAll, StoreAll, Undo, Mismatch;
    var b := Begin(env, r);
    if FirstInExec(env, i.body, b, i.body.length).Device? {
      FirstExecFails(env, i.body, b, i.body.length);
      var s := Attempt(env, i, r);
      if s.cpu.abrt != 0 && !s.stall {
        var p := i.deliver(s.cpu.abrt);
        ExecKeepsFailure(env, p, Delivering(env, i, r), p.length);
      }
    } else {
      FirstExec(env, i.body, b, b, i.body.length);
      var p := i.deliver(Attempt(env, i, r).cpu.abrt);
      FirstExecFails(env, p, Delivering(env, i, r), p.length);
    }
  }

  /** Whether the last device byte read was one or another makes no difference
      to a step that reports nothing if and only if what is skipped before its
      first device byte is alike. */
  lemma RunAlikeIff(env: Env, i: Instr, r: Ref, last: int)
    requires Sane(env, r) && !Reports(Run(env, i, r))
    ensures Forget(Run(env, i, r.(devLast := last))) == Forget(Run(env, i, r)) <==> Alike(env, i, r, last)
  {
    hide Run, FirstDevice;
    var q := r.(devLast := last);
    if Alike(env, i, r, last) {
      RunAlike(env, i, r, last);
    } else {
      FirstDeviceSame(env, i, r, last);
      var f := FirstDevice(env, i, r);
      if Mismatch(env, f.phys, r.devLast) {
        MismatchReports(env, i, r);
      } else {
        MismatchReports(env, i, q);
      }
    }
  }

  // ---- Retries ----

  /** The read data z486 has returned by each attempt. */
  datatype Data = Data(ioRd: seq<Write>, devRd: seq<Write>)

  function Given(env: Env, d: Data): Env {
    env.(ioRd := d.ioRd, devRd := d.devRd)
  }

  function Supplied(r: Ref, d: Data): Ref {
    r.(ioRd := d.ioRd, devRd := d.devRd)
  }

  /** The step tried on each of ds in turn until it does not stall. */
  function Retry(env: Env, i: Instr, r: Ref, ds: seq<Data>): Verdict
    requires 0 < |r.ram| && env.c.ramBytes <= |r.ram| && ds != []
    decreases ds
  {
    var v := Run(Given(env, ds[0]), i, Supplied(r, ds[0]));
    if v.Stalled? && |ds| > 1 then Retry(env, i, v.r, ds[1..]) else v
  }

  /** Every attempt but the last stalls without a report, all that it changed
      in the log. */
  ghost predicate Waits(env: Env, i: Instr, r: Ref, ds: seq<Data>)
    requires 0 < |r.ram| && env.c.ramBytes <= |r.ram|
    decreases ds
  {
    |ds| > 1 ==>
      var v := Run(Given(env, ds[0]), i, Supplied(r, ds[0]));
      && v.Stalled? && !v.r.err && AllLogged(Given(env, ds[0]), i, Supplied(r, ds[0]))
      && Waits(env, i, v.r, ds[1..])
  }

  /** The last device byte read before the last attempt. */
  ghost function LastLeft(env: Env, i: Instr, r: Ref, ds: seq<Data>): int
    requires 0 < |r.ram| && env.c.ramBytes <= |r.ram| && Waits(env, i, r, ds)
    decreases ds
  {
    if |ds| <= 1 then r.devLast
    else LastLeft(env, i, Run(Given(env, ds[0]), i, Supplied(r, ds[0])).r, ds[1..])
  }

  /** Nothing but that is left of the attempts that stalled. */
  lemma {:induction false} OnlyLastLeft(env: Env, i: Instr, r: Ref, ds: seq<Data>)
    requires 0 < |r.ram| && env.c.ramBytes <= |r.ram| && ds != [] && !r.err && Waits(env, i, r, ds)
    ensures var d := ds[|ds| - 1];
            Retry(env, i, r, ds) == Run(Given(env, d), i, Supplied(r, d).(devLast := LastLeft(env, i, r, ds)))
    decreases ds
  {
    hide Run, AllLogged;
    var d := ds[|ds| - 1];
    if |ds| == 1 {
      assert Supplied(r, d).(devLast := r.devLast) == Supplied(r, d);
    } else {
      StallRestores(Given(env, ds[0]), i, Supplied(r, ds[0]));
      var q := Run(Given(env, ds[0]), i, Supplied(r, ds[0])).r;
      OnlyLastLeft(env, i, q, ds[1..]);
      var last := LastLeft(env, i, q, ds[1..]);
      assert Supplied(q, d).(devLast := last) == Supplied(r, d).(devLast := last);
    }
  }

  /** Stall transparency. Any number of stalled attempts, on whatever part of
      the data z486 has returned so far, then a last one, end as that one step
      would alone (RAM, CPU, staged writes, outputs, instruction count and
      remaining data are the same) if what is skipped before its first device
      byte is alike; and unless that step alone reports a divergence, only
      then. */
  lemma RetriesEndAsOneStep(env: Env, i: Instr, r: Ref, ds: seq<Data>)
    requires 0 < |r.ram| && env.c.ramBytes <= |r.ram| && ds != [] && !r.err && Waits(env, i, r, ds)
    ensures var d := ds[|ds| - 1];
            var alone := Run(Given(env, d), i, Supplied(r, d));
            var alike := Alike(Given(env, d), i, Supplied(r, d), LastLeft(env, i, r, ds));
            && (alike ==> Forget(Retry(env, i, r, ds)) == Forget(alone))
            && (!Reports(alone) ==> (Forget(Retry(env, i, r, ds)) == Forget(alone) <==> alike))
  {
    hide Run, Alike, LastLeft, Retry, Waits;
    var d := ds[|ds| - 1];
    var last := LastLeft(env, i, r, ds);
    OnlyLastLeft(env, i, r, ds);
    if Alike(Given(env, d), i, Supplied(r, d), last) {
      RunAlike(Given(env, d), i, Supplied(r, d), last);
    }
    if !Reports(Run(Given(env, d), i, Supplied(r, d))) {
      RunAlikeIff(Given(env, d), i, Supplied(r, d), last);
    }
  }

  /** With one read queue per instruction an attempt that has stalled reports
      nothing: what it reads from then on has no data to be compared with. */
  lemma {:induction false} StalledReportsNothing(env: Env, p: Program, s: Sim, left: nat)
    requires Good(env, s) && s.devCur == |env.devRd|
    requires forall cpu :: !p.act(cpu).In?
    ensures Exec(env, p, s, left).failed == s.failed
    decreases left
  {
    hide ReadN, WriteN;
    var a := p.act(s.cpu);
    if left > 0 && !a.Stop? {
      match a {
        case Read(lin, n) => DrainedRead(env, s, lin, n, []);
        case Store(lin, bytes) => WriteKeeps(env, s, lin, bytes);
        case _ =>
      }
      StalledReportsNothing(env, p, Perform(env, p, s, a), left - 1);
    }
  }

  lemma {:induction false} DrainedRead(env: Env, s: Sim, lin: Word32, n: nat, got: seq<Byte>)
    requires Good(env, s) && |got| <= n && s.devCur == |env.devRd|
    ensures var g := ReadN(env, s, lin, n, got).s; g.failed == s.failed && g.devCur == s.devCur
    decreases n - |got|
  {
    hide Walk;
    if |got| < n && s.cpu.abrt == 0 {
      match Walk(s.cpu, s.ram, env.a20, At(lin, |got|), false) {
        case PageFault(_) =>
        case Frame(phys) =>
          var r := ReadByte(env, s, phys);
          DrainedRead(env, r.0, lin, n, got + [r.1]);
      }
    }
  }

  // ---- A replayed device read ----

  /** Reads the device bytes A0000 and A0001. */
  function TwoReads(): Instr {
    Instr(Program((cpu: Cpu) => if cpu.core == 0 then Read(DEV_LO, 1)
                                else if cpu.core == 1 then Read(DEV_LO + 1, 1) else Stop,
                  (cpu: Cpu, resp) => cpu.(core := cpu.core + 1), 2),
          false, cpu => (0, 0), vec => Program(cpu => Stop, (cpu, resp) => cpu, 0))
  }

  /** One device byte read with paging off. */
  lemma ReadDevice(env: Env, s: Sim, lin: Word32)
    requires Good(env, s) && s.cpu.abrt == 0 && s.cpu.cr0 == 0 && env.a20 && DEV_LO <= lin < DEV_HI
    ensures var r := ReadByte(env, s, lin);
            ReadN(env, s, lin, 1, []) == Got(r.0, Bytes([r.1]))
  {
    assert At(lin, 0) == lin && Walk(s.cpu, s.ram, true, lin, false) == Frame(lin);
    var r := ReadByte(env, s, lin);
    assert ReadN(env, r.0, lin, 1, [r.1]) == Got(r.0, Bytes([r.1]));
    assert [] + [r.1] == [r.1];
  }

  lemma TwoReadsAttempt(env: Env, r: Ref)
    requires Sane(env, r) && env.a20 && r.cpu.core == 0 && r.cpu.cr0 == 0
    ensures var s := Begin(env, r);
            var s1 := ReadByte(env, s, DEV_LO).0;
            var s2 := ReadByte(env, s1.(cpu := s1.cpu.(core := 1)), DEV_LO + 1).0;
            Attempt(env, TwoReads(), r) == s2.(cpu := s2.cpu.(core := 2))
  {
    var i, s := TwoReads(), Begin(env, r);
    ReadDevice(env, s, DEV_LO);
    var s1 := ReadByte(env, s, DEV_LO).0;
    var t1 := s1.(cpu := s1.cpu.(core := 1));
    assert Perform(env, i.body, s, Read(DEV_LO, 1)) == t1;
    ReadDevice(env, t1, DEV_LO + 1);
    var s2 := ReadByte(env, t1, DEV_LO + 1).0;
    var t2 := s2.(cpu := s2.cpu.(core := 2));
    assert Perform(env, i.body, t1, Read(DEV_LO + 1, 1)) == t2;
    assert Exec(env, i.body, t1, 1) == t2;
    assert TranslateAll(env, t2.cpu, t2.ram, 0, 0, true, []) == Pages([]);
  }

  /** The reference at TwoReads, having read `last`, given the data ds. */
  function ReplayRef(last: int, ds: seq<Write>): Ref {
    Ref(Cpu(0, 0, 0, 0, false, false, 0, 0), [0], 0, [], ds, last, false)
  }

  function ReplayEnv(ds: seq<Write>): Env {
    Env(Config(1, false), true, false, [], ds)
  }

  /** z486's reads: A0005 again, then A0000; then also A0001. */
  const SOME: seq<Write> := [Write(DEV_LO + 5, 9), Write(DEV_LO, 1)]
  const ALL: seq<Write> := [Write(DEV_LO + 5, 9), Write(DEV_LO, 1), Write(DEV_LO + 1, 2)]

  lemma ReplayAtOnce()
    ensures Run(ReplayEnv(ALL), TwoReads(), ReplayRef(DEV_LO + 5, ALL)).Completed?
  {
    assert SkipReplays(ALL, 1, DEV_LO, DEV_LO + 5) == 1;
    assert SkipReplays(ALL, 0, DEV_LO, DEV_LO + 5) == 1;
    assert SkipReplays(ALL, 2, DEV_LO + 1, DEV_LO) == 2;
    TwoReadsAttempt(ReplayEnv(ALL), ReplayRef(DEV_LO + 5, ALL));
  }

  lemma ReplayStalls()
    ensures Run(ReplayEnv(SOME), TwoReads(), ReplayRef(DEV_LO + 5, SOME)) == Stalled(ReplayRef(DEV_LO, SOME))
  {
    assert SkipReplays(SOME, 1, DEV_LO, DEV_LO + 5) == 1;
    assert SkipReplays(SOME, 0, DEV_LO, DEV_LO + 5) == 1;
    TwoReadsAttempt(ReplayEnv(SOME), ReplayRef(DEV_LO + 5, SOME));
  }

  lemma ReplayRetried()
    ensures Run(ReplayEnv(ALL), TwoReads(), ReplayRef(DEV_LO, ALL)) == Failed
  {
    assert SkipReplays(ALL, 0, DEV_LO, DEV_LO) == 0;
    assert SkipReplays(ALL, 2, DEV_LO + 1, DEV_LO) == 2;
    assert SkipReplays(ALL, 1, DEV_LO + 1, DEV_LO) == 2;
    TwoReadsAttempt(ReplayEnv(ALL), ReplayRef(DEV_LO, ALL));
  }

  /** Where it is not alike: the undo does not give back the last device
      byte read, by which a repeated read is recognised. z486 repeats its
      read of A0005 (the reference's last) before reading A0000. A step given
      all the data skips the repeat and completes; after one stalled attempt
      the same step reports a divergence. */
  lemma ReplayedReadBreaksRetry()
    ensures var env, r := ReplayEnv([]), ReplayRef(DEV_LO + 5, []);
            var some, all := Data([], SOME), Data([], ALL);
            && Run(Given(env, all), TwoReads(), Supplied(r, all)).Completed?
            && Retry(env, TwoReads(), r, [some, all]) == Failed
  {
    ReplayAtOnce();
    ReplayStalls();
    ReplayRetried();
    assert [Data([], SOME), Data([], ALL)][1..] == [Data([], ALL)];
  }
}
