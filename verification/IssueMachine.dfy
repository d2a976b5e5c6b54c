/** The reference that the issues drive, as the speculative step and the
    matcher together: what the books of `Issues` count are steps of the
    co-simulation's state machine, and what reaches the checker is what that
    machine is fed. */
module IssueMachine {
  import opened Platform
  import opened EventQueue
  import opened WriteMatcher
  import opened Outstanding
  import opened MatcherSoundness
  import opened CosimRun
  import opened RunSoundness
  import opened RunTheorems
  import opened Speculation
  import opened Rollback
  import Paging
  import I = Issues
  import H = IssueHistory

  /** The reference between issues: the speculation's state, the matcher's
      queues, and whether the last step raised a fault. For the proofs, what
      the issues have made it do, the machine at the last reset, and all that
      has happened since. */
  datatype State = State(r: Ref, s: Machine, fault: bool, did: seq<I.Op>, from: Machine, log: seq<Event>)

  /** What the reference is made of: its configuration, the instruction a CPU
      state is at (whole, or a repeated string up to a count), the entry of an
      interrupt, and the views of the CPU state. */
  datatype Core = Core(
    c: Config, decode: Paging.Cpu -> Instr, decodeTo: (Paging.Cpu, Word32) -> Instr, fpu: Paging.Cpu -> bool,
    enter: Byte -> Program, cs: Paging.Cpu -> Word16, eip: Paging.Cpu -> Word32, atRep: Paging.Cpu -> bool,
    reg: (Paging.Cpu, nat) -> Word32, adopt: (Paging.Cpu, Word32) -> Paging.Cpu)

  function EnvOf(k: Core, st: State): Env {
    Env(k.c, st.s.a20, k.fpu(st.r.cpu), st.r.ioRd, st.r.devRd)
  }

  predicate Fit(k: Core, st: State) {
    0 < |st.r.ram| && k.c.ramBytes <= |st.r.ram|
  }

  /** The step's writes and outputs joined to the queues; an adopted x87 store
      is in the reference's RAM. */
  function Committed(k: Core, st: State, r: Ref, stage: seq<Ev>, outs: seq<Write>, fault: bool, fpu: bool,
                     op: I.Op): I.Ran<State>
    requires k.c.ramBytes <= |r.ram|
  {
    var m := Commit(k.c, st.s.m.(ram := r.ram), stage, st.s.ninsn + 1);
    var io := MatchAllIo(st.s.expIo + outs, [], st.s.dutIo);
    if m.ok && io.ok then
      I.Done(State(r.(ram := m.m.ram), Machine(m.m, io.expIo, io.dutIo, st.s.a20, st.s.ninsn + 1), fault,
                   st.did + [op], st.from, st.log + [CosimRun.Step(Writes(stage), outs, fpu)]))
    else I.Error
  }

  /** run. */
  function Step(k: Core, st: State, i: Instr, op: I.Op): I.Ran<State> {
    if !Fit(k, st) then I.Error
    else
      match Speculation.Run(EnvOf(k, st), i, st.r)
      case Stalled(r) => I.Stalled(st.(r := r, fault := false))
      case Completed(r, stage, outs, fault) =>
        if |r.ram| != |st.r.ram| then I.Error
        else Committed(k, st, r, stage, outs, fault != 0, k.fpu(st.r.cpu), op)
      case Failed => I.Error
  }

  /** cosim_interrupt: the handler's entry; reads z486 made for squashed work
      are dropped. */
  function Interrupt(k: Core, st: State, vec: Byte): I.Ran<State> {
    if !Fit(k, st) || st.r.err then I.Error
    else
      var r := st.r.(ioRd := [], devRd := []);
      var env := EnvOf(k, st.(r := r)).(fpu := false);
      var s := Exec(env, k.enter(vec), Begin(env, r), k.enter(vec).length);
      if s.cpu.abrt != 0 || s.failed then I.Error
      else
        var r' := r.(cpu := s.cpu, ram := s.ram, ninsn := r.ninsn + 1, devLast := s.devLast);
        Committed(k, st, r', s.stage, s.outs, st.fault, false, I.Handler(vec))
  }

  function Whole(k: Core): I.Reference<State> {
    I.Reference(
      (st: State) => k.cs(st.r.cpu), (st: State) => k.eip(st.r.cpu), (st: State) => st.r.ninsn,
      (st: State) => st.did, (st: State) => k.atRep(st.r.cpu), (st: State) => st.fault,
      (st: State, n: nat) => k.reg(st.r.cpu, n),
      (st: State) => Step(k, st, k.decode(st.r.cpu), I.Instruction),
      (st: State, n: Word32) => Step(k, st, k.decodeTo(st.r.cpu, n), I.UpTo(n)),
      (st: State, v: Byte) => Interrupt(k, st, v),
      (st: State, e: Word32) => st.(r := st.r.(cpu := k.adopt(st.r.cpu, e)), did := st.did + [I.FlagsFrom(e)]))
  }

  lemma StepCounts(k: Core, st: State, i: Instr, op: I.Op)
    ensures var t := Step(k, st, i, op);
            && (t.Done? ==> t.r.r.ninsn == st.r.ninsn + 1 && t.r.did == st.did + [op])
            && (t.Stalled? ==> t.r.r.ninsn == st.r.ninsn && !t.r.fault && t.r.did == st.did)
  {
    hide Attempt, Deliver, FaultState, Undo, Commit, MatchAllIo;
  }

  lemma InterruptCounts(k: Core, st: State, vec: Byte)
    ensures var t := Interrupt(k, st, vec);
            t.Done? ==> t.r.r.ninsn == st.r.ninsn + 1 && t.r.did == st.did + [I.Handler(vec)]
  {
    hide Exec, Commit, MatchAllIo;
  }

  /** It keeps what the issues rely on, and remembers what they made it do. */
  lemma IsLawful(k: Core)
    ensures I.Lawful(Whole(k)) && I.Remembers(Whole(k))
  {
    hide Step, Interrupt;
    var p := Whole(k);
    forall st: State
      ensures p.step(st).Done? ==>
                p.ran(p.step(st).r) == p.ran(st) + 1 && p.did(p.step(st).r) == p.did(st) + [I.Instruction]
      ensures p.step(st).Stalled? ==>
                && p.ran(p.step(st).r) == p.ran(st) && p.did(p.step(st).r) == p.did(st)
                && !p.faulted(p.step(st).r)
    {
      StepCounts(k, st, k.decode(st.r.cpu), I.Instruction);
    }
    forall st: State, n: Word32
      ensures p.stepTo(st, n).Done? ==>
                p.ran(p.stepTo(st, n).r) == p.ran(st) + 1 && p.did(p.stepTo(st, n).r) == p.did(st) + [I.UpTo(n)]
      ensures p.stepTo(st, n).Stalled? ==>
                p.ran(p.stepTo(st, n).r) == p.ran(st) && p.did(p.stepTo(st, n).r) == p.did(st)
    {
      StepCounts(k, st, k.decodeTo(st.r.cpu, n), I.UpTo(n));
    }
    forall st: State, v: Byte
      ensures p.interrupt(st, v).Done? ==>
                p.ran(p.interrupt(st, v).r) == p.ran(st) + 1
                && p.did(p.interrupt(st, v).r) == p.did(st) + [I.Handler(v)]
    {
      InterruptCounts(k, st, v);
    }
  }

  // ---- A step is a step of the co-simulation ----

  /** The two sides of the reference agree: one RAM, one instruction count. */
  ghost predicate Coupled(k: Core, st: State) {
    Fit(k, st) && st.s.m.ram == st.r.ram && st.s.ninsn == st.r.ninsn
  }

  /** What is committed, with the stores that made its RAM, is a step of the
      co-simulation, and is recorded as one. */
  lemma CommitIsStep(k: Core, st: State, r: Ref, stage: seq<Ev>, outs: seq<Write>, fault: bool, fpu: bool, op: I.Op)
    requires Coupled(k, st) && |r.ram| == |st.r.ram| && r.ninsn == st.r.ninsn + 1
    requires StoreAll(k.c, Stored(st.r.ram, []), Writes(stage), fpu) == Stored(r.ram, stage)
    requires Committed(k, st, r, stage, outs, fault, fpu, op).Done?
    ensures var st' := Committed(k, st, r, stage, outs, fault, fpu, op).r;
            && Next(k.c, st.s, CosimRun.Step(Writes(stage), outs, fpu)) == Running(st'.s)
            && Coupled(k, st')
  {
    hide StoreAll, MatchAll, MatchAllIo, Writes, Tagged;
  }

  /** Whatever an instruction has to give back is in the log: it stalled, or
      it faulted and keeps none of its stores. */
  ghost predicate LogHolds(k: Core, st: State, i: Instr) {
    Fit(k, st) ==>
      var v := Speculation.Run(EnvOf(k, st), i, st.r);
      v.Stalled? || (v.Completed? && v.fault != 0 && !i.rep && !ProbeFaulted(EnvOf(k, st), i, st.r)) ==>
        AllLogged(EnvOf(k, st), i, st.r)
  }

  /** A step of the reference: the co-simulation takes the step with the
      stores and outputs it committed. */
  lemma StepIsCosimStep(k: Core, st: State, i: Instr, op: I.Op)
    requires Coupled(k, st) && Step(k, st, i, op).Done? && LogHolds(k, st, i)
    ensures var v, st' := Speculation.Run(EnvOf(k, st), i, st.r), Step(k, st, i, op).r;
            var e := CosimRun.Step(Writes(v.stage), v.outs, k.fpu(st.r.cpu));
            && v.Completed? && Next(k.c, st.s, e) == Running(st'.s)
            && Coupled(k, st') && st'.from == st.from && st'.log == st.log + [e]
  {
    hide Attempt, StoreAll, Writes, AllLogged, ProbeFaulted, Commit, MatchAllIo;
    CompletedCount(k, st, i);
    CompletedStepStores(EnvOf(k, st), i, st.r);
    var v := Speculation.Run(EnvOf(k, st), i, st.r);
    CommitIsStep(k, st, v.r, v.stage, v.outs, v.fault != 0, k.fpu(st.r.cpu), op);
  }

  lemma CompletedCount(k: Core, st: State, i: Instr)
    requires Fit(k, st) && Speculation.Run(EnvOf(k, st), i, st.r).Completed?
    ensures Speculation.Run(EnvOf(k, st), i, st.r).r.ninsn == st.r.ninsn + 1
  {
    hide Attempt, Deliver, FaultState;
  }

  /** The entry of a vector's handler, from a state. */
  function Entry(k: Core, st: State, vec: Byte): Sim
    requires Fit(k, st)
  {
    var r := st.r.(ioRd := [], devRd := []);
    Exec(EnvOf(k, st.(r := r)).(fpu := false), k.enter(vec), Begin(EnvOf(k, st.(r := r)).(fpu := false), r),
         k.enter(vec).length)
  }

  /** And so is an interrupt: with what its vector's handler's entry stores and
      outputs. */
  lemma InterruptIsCosimStep(k: Core, st: State, vec: Byte) returns (e: Event)
    requires Coupled(k, st) && Interrupt(k, st, vec).Done?
    ensures var st' := Interrupt(k, st, vec).r;
            && e == CosimRun.Step(Writes(Entry(k, st, vec).stage), Entry(k, st, vec).outs, false)
            && st'.r.cpu == Entry(k, st, vec).cpu
            && Next(k.c, st.s, e) == Running(st'.s)
            && Coupled(k, st') && st'.from == st.from && st'.log == st.log + [e]
  {
    hide Exec, StoreAll, Writes, Commit, MatchAllIo;
    var r := st.r.(ioRd := [], devRd := []);
    var env := EnvOf(k, st.(r := r)).(fpu := false);
    var base, p := Stored(r.ram, []), k.enter(vec);
    var s := Exec(env, p, Begin(env, r), p.length);
    BeginFollowed(env, r);
    var ws := FollowedExec(env, p, base, Begin(env, r), [], p.length);
    FollowedWrites(env, base, s, ws);
    var r' := r.(cpu := s.cpu, ram := s.ram, ninsn := r.ninsn + 1, devLast := s.devLast);
    CommitIsStep(k, st, r', s.stage, s.outs, st.fault, false, I.Handler(vec));
    e := CosimRun.Step(Writes(s.stage), s.outs, false);
  }

  lemma BeginFollowed(env: Env, r: Ref)
    requires Sane(env, r)
    ensures Followed(env, Stored(r.ram, []), Begin(env, r), [])
  {
  }

  lemma FollowedWrites(env: Env, base: Stored, s: Sim, ws: seq<Write>)
    requires Followed(env, base, s, ws) && base.stage == []
    ensures StoreAll(env.c, base, Writes(s.stage), env.fpu) == Stored(s.ram, s.stage)
  {
    hide FirstIs, OthersUnchanged, Changes;
    StagedWrites(env.c, base, ws, env.fpu);
    assert Writes([]) + ws == ws;
  }

  // ---- What reaches the checker ----

  /** In one clock or another: an issue, a vector, a cut, a write or output by
      z486, DMA or the page walker, the A20 line, a byte of read data, or a
      reset, after which the reference has z486's RAM. */
  datatype Input = Issued(i: I.Issue) | Acknowledged(v: Byte) | Cut | Bus(e: Event)
                 | IoData(w: Write) | DevData(w: Write) | Reset(cpu: Paging.Cpu, ram: seq<Byte>)

  /** The reference after a bus event. */
  function Received(st: State, e: Event, s': Machine): State {
    st.(r := st.r.(ram := s'.m.ram), s := s', log := st.log + [e])
  }

  /** cosim_reset, and the RAM copied. */
  function AtReset(st: State, cpu: Paging.Cpu, ram: seq<Byte>): State {
    var s := Machine(Match([], [], ram), [], [], st.s.a20, st.s.ninsn);
    State(st.r.(cpu := cpu, ram := ram, ioRd := [], devRd := []), s, false, st.did, s, [])
  }

  /** The input is what the checker can be sent, and the matcher accepts it. */
  ghost predicate Taken(k: Core, h: I.Host<State>, x: Input) {
    match x
    case Issued(i) => |i.gpr| == I.REGISTERS
    case Bus(e) => !e.Step? && Fits(k.c, h.r.s) && Next(k.c, h.r.s, e).Running?
    case Reset(_, ram) => |ram| == |h.r.r.ram|
    case _ => true
  }

  function ArrivalOf(k: Core, h: I.Host<State>, x: Input): I.Arrival<State>
    requires Taken(k, h, x)
  {
    match x
    case Issued(i) => I.Arrival.Issued(i)
    case Acknowledged(v) => I.Acknowledged(v)
    case Cut => I.Cut
    case Bus(e) => I.Touched(Received(h.r, e, Next(k.c, h.r.s, e).s))
    case IoData(w) => I.Touched(h.r.(r := h.r.r.(ioRd := h.r.r.ioRd + [w])))
    case DevData(w) => I.Touched(h.r.(r := h.r.r.(devRd := h.r.r.devRd + [w])))
    case Reset(cpu, ram) => I.Arrival.Reset(AtReset(h.r, cpu, ram))
  }

  lemma ArrivalIsProper(k: Core, h: I.Host<State>, x: Input)
    requires Taken(k, h, x)
    ensures I.Proper(Whole(k), h, ArrivalOf(k, h, x))
  {
    hide Step, Interrupt, Next;
  }

  function Arrived(k: Core, h: I.Host<State>, x: Input): (h': I.Host<State>)
    requires I.Whole(h) && Taken(k, h, x)
    ensures I.Whole(h')
  {
    I.Arrive(h, ArrivalOf(k, h, x))
  }

  function After(k: Core, h: I.Host<State>, x: Input): (t: I.Turn<State>)
    requires I.Whole(h) && Taken(k, h, x)
    ensures I.Whole(t.h)
  {
    I.Process(Whole(k), Arrived(k, h, x))
  }

  /** Nothing is reported: the matcher takes every input, and following the
      issues meets no divergence. */
  ghost predicate Unreported(k: Core, h: I.Host<State>, xs: seq<Input>)
    requires I.Whole(h)
    decreases xs
  {
    xs != [] ==>
      && Taken(k, h, xs[0]) && After(k, h, xs[0]).what != I.Diverged
      && Unreported(k, After(k, h, xs[0]).h, xs[1..])
  }

  /** The same run as the arrivals of the issue loop. */
  ghost function Arrivals(k: Core, h: I.Host<State>, xs: seq<Input>): (arrivals: seq<I.Arrival<State>>)
    requires I.Whole(h) && Unreported(k, h, xs)
    ensures |arrivals| == |xs|
    decreases xs
  {
    if xs == [] then []
    else [ArrivalOf(k, h, xs[0])] + Arrivals(k, After(k, h, xs[0]).h, xs[1..])
  }

  ghost function Follow(k: Core, h: I.Host<State>, xs: seq<Input>): (t: I.Turn<State>)
    requires I.Whole(h) && Unreported(k, h, xs)
    ensures I.Whole(t.h)
  {
    I.Follow(Whole(k), h, Arrivals(k, h, xs))
  }

  lemma FollowNext(k: Core, h: I.Host<State>, xs: seq<Input>)
    requires I.Whole(h) && Unreported(k, h, xs) && xs != []
    ensures var t := After(k, h, xs[0]);
            var rest := Follow(k, t.h, xs[1..]);
            Follow(k, h, xs).h == rest.h && Follow(k, h, xs).what == rest.what
  {
    hide Whole, I.Process, Taken;
    var arrivals := Arrivals(k, h, xs);
    ArrivalIsProper(k, h, xs[0]);
    assert arrivals[0] == ArrivalOf(k, h, xs[0]) && arrivals[1..] == Arrivals(k, After(k, h, xs[0]).h, xs[1..]);
  }

  lemma {:induction false} FollowRuns(k: Core, h: I.Host<State>, xs: seq<Input>)
    requires I.Whole(h) && Unreported(k, h, xs)
    ensures Follow(k, h, xs).what != I.Diverged
    decreases xs
  {
    hide Whole, After, Taken, Arrivals;
    if xs == [] {
      assert Arrivals(k, h, xs) == [];
    } else {
      FollowNext(k, h, xs);
      FollowRuns(k, After(k, h, xs[0]).h, xs[1..]);
    }
  }

  // ---- What z486 has done ----

  /** z486 by what came over its buses since the last reset: its memory, its
      outputs and the A20 line. */
  datatype Z486 = Z486(z: seq<Byte>, outs: seq<Write>, a20: bool)

  function Seen(c: Config, b: Z486, x: Input): (b': Z486)
    requires c.ramBytes <= |b.z|
    ensures |b'.z| == |b.z|
  {
    match x
    case Bus(DutWrite(phys, val)) => b.(z := Put(c, b.z, Write(PlatformPhys(b.a20, phys), val)))
    case Bus(DutOut(port, val)) => b.(outs := b.outs + [Write(port, val)])
    case Bus(Dma(phys, val)) => b.(z := Poke(c, b.z, phys, val))
    case Bus(Walker(phys, val)) => b.(z := Poke(c, b.z, PlatformPhys(b.a20, phys), val))
    case Bus(SetA20(on)) => b.(a20 := on)
    case Reset(_, ram) => if |ram| == |b.z| then b.(z := ram, outs := []) else b
    case _ => b
  }

  function SeenAll(c: Config, b: Z486, xs: seq<Input>): (b': Z486)
    requires c.ramBytes <= |b.z|
    ensures |b'.z| == |b.z|
    decreases xs
  {
    if xs == [] then b else SeenAll(c, Seen(c, b, xs[0]), xs[1..])
  }

  /** What an observer of the buses has recorded since the reset. */
  ghost function Record(k: Core, st: State): Observed
    requires Fits(k.c, st.from)
  {
    ObserveAll(k.c, st.from.a20, Observed(st.from.m.ram, [], [], [], []), st.log)
  }

  /** The reference has come to st from the last reset by the events recorded,
      and z486 is as they show it. */
  ghost predicate Reached(k: Core, st: State, b: Z486) {
    && Coupled(k, st) && Fits(k.c, st.from) && Start(k.c, st.from, Observed(st.from.m.ram, [], [], [], []))
    && CosimRun.Run(k.c, st.from, st.log) == Running(st.s)
    && Record(k, st).z == b.z && Record(k, st).dutOut == b.outs && st.s.a20 == b.a20
  }

  lemma {:induction false} RunAppend(c: Config, s: Machine, evs: seq<Event>, e: Event)
    requires Fits(c, s) && CosimRun.Run(c, s, evs).Running?
    ensures CosimRun.Run(c, s, evs + [e]) == Next(c, CosimRun.Run(c, s, evs).s, e)
    decreases evs
  {
    hide Next;
    if evs == [] {
      assert ([] + [e])[1..] == [];
    } else {
      assert (evs + [e])[1..] == evs[1..] + [e];
      RunAppend(c, Next(c, s, evs[0]).s, evs[1..], e);
    }
  }

  lemma {:induction false} ObserveAppend(c: Config, s: Machine, o: Observed, evs: seq<Event>, e: Event)
    requires Fits(c, s) && c.ramBytes <= |o.z| && CosimRun.Run(c, s, evs).Running?
    ensures ObserveAll(c, s.a20, o, evs + [e])
         == Observe(c, CosimRun.Run(c, s, evs).s.a20, ObserveAll(c, s.a20, o, evs), e)
    decreases evs
  {
    hide Next, Observe;
    if evs == [] {
      assert ([] + [e])[1..] == [];
    } else {
      assert (evs + [e])[1..] == evs[1..] + [e];
      NextLine(c, s, evs[0]);
      ObserveAppend(c, Next(c, s, evs[0]).s, Observe(c, s.a20, o, evs[0]), evs[1..], e);
    }
  }

  /** One more event. */
  lemma Reaches(k: Core, st: State, b: Z486, e: Event, st': State)
    requires Reached(k, st, b) && Next(k.c, st.s, e) == Running(st'.s) && Coupled(k, st')
    requires st'.from == st.from && st'.log == st.log + [e]
    ensures k.c.ramBytes <= |b.z|
    ensures Reached(k, st', if e.Step? then b else Seen(k.c, b, Bus(e)))
  {
    hide Next, CosimRun.Run, ObserveAll;
    var o := Observed(st.from.m.ram, [], [], [], []);
    RunAppend(k.c, st.from, st.log, e);
    ObserveAppend(k.c, st.from, o, st.log, e);
    NextLine(k.c, st.s, e);
  }

  lemma StepReaches(k: Core, st: State, b: Z486, i: Instr, op: I.Op)
    requires Reached(k, st, b) && LogHolds(k, st, i)
    ensures Step(k, st, i, op).Done? || Step(k, st, i, op).Stalled? ==> Reached(k, Step(k, st, i, op).r, b)
  {
    hide CosimRun.Run, Next, AllLogged, ProbeFaulted, Committed, Speculation.Run, ObserveAll;
    if Step(k, st, i, op).Done? {
      StepIsCosimStep(k, st, i, op);
      var v := Speculation.Run(EnvOf(k, st), i, st.r);
      Reaches(k, st, b, CosimRun.Step(Writes(v.stage), v.outs, k.fpu(st.r.cpu)), Step(k, st, i, op).r);
    } else if Step(k, st, i, op).Stalled? {
      NotCommitted(k, st, i, op);
      StallRestores(EnvOf(k, st), i, st.r);
    }
  }

  lemma NotCommitted(k: Core, st: State, i: Instr, op: I.Op)
    requires Step(k, st, i, op).Stalled?
    ensures Fit(k, st) && Speculation.Run(EnvOf(k, st), i, st.r).Stalled?
    ensures Step(k, st, i, op).r == st.(r := Speculation.Run(EnvOf(k, st), i, st.r).r, fault := false)
  {
    hide Speculation.Run, Commit, MatchAllIo;
  }

  lemma InterruptReaches(k: Core, st: State, b: Z486, vec: Byte)
    requires Reached(k, st, b)
    ensures Interrupt(k, st, vec).Done? ==> Reached(k, Interrupt(k, st, vec).r, b)
  {
    hide CosimRun.Run, Next, Interrupt, ObserveAll;
    if Interrupt(k, st, vec).Done? {
      var e := InterruptIsCosimStep(k, st, vec);
      Reaches(k, st, b, e, Interrupt(k, st, vec).r);
    }
  }

  // ---- Following the issues ----

  /** The instruction that the pending issue runs. */
  function Pending(k: Core, h: I.Host<State>, i: I.Issue): Instr {
    if h.vectors != [] && Whole(k).atRep(h.r) then k.decodeTo(h.r.r.cpu, i.ecx) else k.decode(h.r.r.cpu)
  }

  /** In one turn of the loop, the log holds for the pending instruction and
      for the one whose fetch faults, as far as they are run. */
  ghost predicate TurnLogged(k: Core, h: I.Host<State>)
    requires I.Whole(h) && h.issues != []
  {
    var p, i := Whole(k), h.issues[0];
    var a := I.CutShort(p, h).h;
    var t := I.RunCurrent(p, a, i);
    var u := I.TakeVector(p, t.h, i);
    && (a.haveCur ==> LogHolds(k, a.r, Pending(k, a, i)))
    && (t.what == I.GoOn && u.what == I.GoOn && !I.SamePc(p, u.h.r, i) && !u.h.squashOk ==>
          LogHolds(k, u.h.r, k.decode(u.h.r.r.cpu)))
  }

  ghost predicate ProcessLogged(k: Core, h: I.Host<State>)
    requires I.Whole(h)
    decreases |h.issues|
  {
    h.issues != [] ==>
      && TurnLogged(k, h)
      && (I.TakeOne(Whole(k), h).what == I.GoOn ==> ProcessLogged(k, I.TakeOne(Whole(k), h).h))
  }

  /** Wherever the run takes the reference, the log holds. */
  ghost predicate RunLogged(k: Core, h: I.Host<State>, xs: seq<Input>)
    requires I.Whole(h) && Unreported(k, h, xs)
    decreases xs
  {
    xs != [] ==>
      && ProcessLogged(k, Arrived(k, h, xs[0]))
      && RunLogged(k, After(k, h, xs[0]).h, xs[1..])
  }

  /** How the pending instruction is run. */
  function PendingOp(k: Core, h: I.Host<State>, i: I.Issue): I.Op {
    if h.vectors != [] && Whole(k).atRep(h.r) then I.UpTo(i.ecx) else I.Instruction
  }

  lemma CurrentReaches(k: Core, h: I.Host<State>, b: Z486, i: I.Issue)
    requires Reached(k, h.r, b) && (h.haveCur ==> LogHolds(k, h.r, Pending(k, h, i)))
    ensures var t := I.RunCurrent(Whole(k), h, i); t.what != I.Diverged ==> Reached(k, t.h.r, b)
  {
    hide Step, Interrupt, LogHolds, CosimRun.Run, ObserveAll;
    if h.haveCur {
      StepReaches(k, h.r, b, Pending(k, h, i), PendingOp(k, h, i));
    }
  }

  lemma VectorReaches(k: Core, h: I.Host<State>, b: Z486, i: I.Issue)
    requires Reached(k, h.r, b)
    ensures var t := I.TakeVector(Whole(k), h, i); t.what != I.Diverged ==> Reached(k, t.h.r, b)
  {
    hide Step, Interrupt, CosimRun.Run, ObserveAll, Reached;
    if h.vectors != [] {
      InterruptReaches(k, h.r, b, h.vectors[0]);
    }
  }

  lemma DisposeReaches(k: Core, h: I.Host<State>, b: Z486, i: I.Issue)
    requires Reached(k, h.r, b) && I.Whole(h) && h.issues != [] && h.issues[0] == i
    requires !I.SamePc(Whole(k), h.r, i) && !h.squashOk ==> LogHolds(k, h.r, k.decode(h.r.r.cpu))
    ensures var t := I.Dispose(Whole(k), h, i); t.what != I.Diverged ==> Reached(k, t.h.r, b)
  {
    hide Step, Interrupt, LogHolds, CosimRun.Run, ObserveAll, Reached, I.CheckFrom;
    if !I.SamePc(Whole(k), h.r, i) && !h.squashOk {
      StepReaches(k, h.r, b, k.decode(h.r.r.cpu), I.Instruction);
    }
  }

  lemma TurnReaches(k: Core, h: I.Host<State>, b: Z486)
    requires I.Whole(h) && h.issues != [] && Reached(k, h.r, b) && TurnLogged(k, h)
    ensures var t := I.TakeOne(Whole(k), h); t.what != I.Diverged ==> Reached(k, t.h.r, b)
  {
    hide Whole, LogHolds, Reached, I.RunCurrent, I.TakeVector, I.Dispose;
    var p, i := Whole(k), h.issues[0];
    var a := I.CutShort(p, h).h;
    CurrentReaches(k, a, b, i);
    var t := I.RunCurrent(p, a, i);
    if t.what == I.GoOn {
      VectorReaches(k, t.h, b, i);
      var u := I.TakeVector(p, t.h, i);
      if u.what == I.GoOn {
        DisposeReaches(k, u.h, b, i);
      }
    }
  }

  lemma {:induction false} ProcessReaches(k: Core, h: I.Host<State>, b: Z486)
    requires I.Whole(h) && Reached(k, h.r, b) && ProcessLogged(k, h)
    ensures var t := I.Process(Whole(k), h); t.what != I.Diverged ==> Reached(k, t.h.r, b)
    decreases |h.issues|
  {
    hide Whole, Reached, TurnLogged, I.TakeOne;
    if h.issues != [] {
      TurnReaches(k, h, b);
      if I.TakeOne(Whole(k), h).what == I.GoOn {
        ProcessReaches(k, I.TakeOne(Whole(k), h).h, b);
      }
    }
  }

  lemma ArrivalReaches(k: Core, h: I.Host<State>, b: Z486, x: Input)
    requires I.Whole(h) && Reached(k, h.r, b) && Taken(k, h, x)
    ensures k.c.ramBytes <= |b.z|
    ensures Reached(k, Arrived(k, h, x).r, Seen(k.c, b, x))
  {
    hide Next, CosimRun.Run;
    match x
    case Bus(e) =>
      var s' := Next(k.c, h.r.s, e).s;
      OutsideCounts(k.c, h.r.s, e);
      Reaches(k, h.r, b, e, Received(h.r, e, s'));
    case Reset(cpu, ram) => ResetReaches(k, h.r, b, cpu, ram);
    case _ =>
  }

  lemma ResetReaches(k: Core, st: State, b: Z486, cpu: Paging.Cpu, ram: seq<Byte>)
    requires Reached(k, st, b) && |ram| == |st.r.ram|
    ensures |b.z| == |ram| && Reached(k, AtReset(st, cpu, ram), b.(z := ram, outs := []))
  {
    hide Next;
    assert |st.from.m.ram| == |st.s.m.ram|;
  }

  lemma OutsideCounts(c: Config, s: Machine, e: Event)
    requires Fits(c, s) && !e.Step? && Next(c, s, e).Running?
    ensures Next(c, s, e).s.ninsn == s.ninsn
  {
  }

  /** Over every run: where the log holds, the reference is where the events
      since the last reset lead, and z486 is as the inputs show it. */
  lemma {:induction false} FollowReaches(k: Core, h: I.Host<State>, b: Z486, xs: seq<Input>)
    requires I.Whole(h) && Reached(k, h.r, b) && Unreported(k, h, xs) && RunLogged(k, h, xs)
    ensures k.c.ramBytes <= |b.z| && Reached(k, Follow(k, h, xs).h.r, SeenAll(k.c, b, xs))
    decreases xs
  {
    hide Whole, Reached, ProcessLogged, Taken, I.Process, I.Arrive, Seen, Follow, ArrivalOf;
    ReachedFits(k, h.r, b);
    if xs == [] {
      FollowNothing(k, h);
    } else {
      var x := xs[0];
      ArrivalReaches(k, h, b, x);
      ProcessReaches(k, Arrived(k, h, x), Seen(k.c, b, x));
      FollowNext(k, h, xs);
      FollowReaches(k, After(k, h, x).h, Seen(k.c, b, x), xs[1..]);
    }
  }

  lemma ReachedFits(k: Core, st: State, b: Z486)
    requires Reached(k, st, b)
    ensures k.c.ramBytes <= |b.z| == |st.from.m.ram| && Fits(k.c, st.from)
  {
    hide CosimRun.Run;
  }

  lemma FollowNothing(k: Core, h: I.Host<State>)
    requires I.Whole(h)
    ensures Unreported(k, h, []) && Follow(k, h, []) == I.Turn(h, [], I.GoOn)
  {
  }

  // ---- The whole checker ----

  /** The checker and the reference as they start. */
  ghost predicate Starts(k: Core, st: State) {
    && Coupled(k, st) && st.from == st.s && st.log == [] && Start(k.c, st.s, Observed(st.s.m.ram, [], [], [], []))
  }

  function StartingHost(st: State): (h: I.Host<State>)
    ensures I.Whole(h)
  {
    I.Host(st, [], [], false, false, false, seq(I.REGISTERS, _ => 0))
  }

  function IssuesIn(xs: seq<Input>): nat {
    if xs == [] then 0 else (if xs[0].Issued? then 1 else 0) + IssuesIn(xs[1..])
  }

  function VectorsIn(xs: seq<Input>): nat {
    if xs == [] then 0 else (if xs[0].Acknowledged? then 1 else 0) + VectorsIn(xs[1..])
  }

  lemma {:induction false} ArrivalCounts(k: Core, h: I.Host<State>, xs: seq<Input>)
    requires I.Whole(h) && Unreported(k, h, xs)
    ensures I.IssueCount(Arrivals(k, h, xs)) == IssuesIn(xs) && I.VectorCount(Arrivals(k, h, xs)) == VectorsIn(xs)
    decreases xs
  {
    hide Whole, I.Process, Taken;
    if xs != [] {
      var arrivals := Arrivals(k, h, xs);
      assert arrivals[0] == ArrivalOf(k, h, xs[0]) && arrivals[1..] == Arrivals(k, After(k, h, xs[0]).h, xs[1..]);
      ArrivalCounts(k, After(k, h, xs[0]).h, xs[1..]);
    }
  }

  /** The whole checker, from its start, over every sequence of inputs of
      which none is reported, through any resets, with every instruction that
      is undone within the log. The books balance over the inputs. And if,
      since the last reset, the other bus masters did no harm and no adoption
      was careless, then: a RAM byte with no write in flight is the same in
      z486's memory, the fold of the writes that came, and in the reference's;
      with nothing in flight at all both memories are equal, and z486's
      outputs are the reference's. */
  lemma IssuesCheckMemory(k: Core, st: State, xs: seq<Input>)
    requires Starts(k, st) && Unreported(k, StartingHost(st), xs) && RunLogged(k, StartingHost(st), xs)
    ensures k.c.ramBytes <= |st.r.ram|
    ensures var t := Follow(k, StartingHost(st), xs);
            var r, n := t.h.r, t.notes;
            var b := SeenAll(k.c, Z486(st.r.ram, [], st.s.a20), xs);
            // The books.
            && IssuesIn(xs) == I.Count(n, I.Steps) + I.Count(n, I.Restarts) + I.Count(n, I.Squashes)
                 + I.Count(n, I.LostPendings) + I.Count(n, I.LostIssues) + I.One(t.h.haveCur) + |t.h.issues|
            && VectorsIn(xs) == I.Count(n, I.Interrupts) + I.Count(n, I.LostVectors) + |t.h.vectors|
            && r.r.ninsn == st.r.ninsn + I.Count(n, I.Steps) + I.Count(n, I.Interrupts) + I.Count(n, I.FetchSteps)
            // The memories.
            && Reached(k, r, b)
            && (PoliteRun(k.c, r.from, r.log) ==>
                  && (forall a :: InRam(k.c, a) && CarefulRun(k.c, r.from, r.log, a)
                                  && AllSilent(Undone(r.s.m.exp, a)) && Stream(Writes(r.s.m.dut), a) == [] ==>
                        b.z[a] == r.r.ram[a])
                  && ((forall a :: InRam(k.c, a) ==> CarefulRun(k.c, r.from, r.log, a)) && Drained(r.s) ==>
                        b.z == r.r.ram && b.outs == Record(k, r).refOut))
  {
    hide Whole, Follow, Unreported, RunLogged, I.Count, CosimRun.Run, ObserveAll, SeenAll, PoliteRun, CarefulRun;
    hide Undone, Stream, AllSilent, Drained;
    StartReached(k, st);
    FollowReaches(k, StartingHost(st), Z486(st.r.ram, [], st.s.a20), xs);
    Books(k, st, xs);
    var r, b := Follow(k, StartingHost(st), xs).h.r, SeenAll(k.c, Z486(st.r.ram, [], st.s.a20), xs);
    if PoliteRun(k.c, r.from, r.log) {
      Memories(k, r, b);
    }
  }

  lemma StartReached(k: Core, st: State)
    requires Starts(k, st)
    ensures Reached(k, st, Z486(st.r.ram, [], st.s.a20))
  {
  }

  lemma Books(k: Core, st: State, xs: seq<Input>)
    requires Unreported(k, StartingHost(st), xs)
    ensures var t := Follow(k, StartingHost(st), xs);
            var n := t.notes;
            && IssuesIn(xs) == I.Count(n, I.Steps) + I.Count(n, I.Restarts) + I.Count(n, I.Squashes)
                 + I.Count(n, I.LostPendings) + I.Count(n, I.LostIssues) + I.One(t.h.haveCur) + |t.h.issues|
            && VectorsIn(xs) == I.Count(n, I.Interrupts) + I.Count(n, I.LostVectors) + |t.h.vectors|
            && t.h.r.r.ninsn
               == st.r.ninsn + I.Count(n, I.Steps) + I.Count(n, I.Interrupts) + I.Count(n, I.FetchSteps)
  {
    hide Step, Interrupt, Unreported, Arrivals, I.Follow, I.Count, I.AtPc;
    var h := StartingHost(st);
    IsLawful(k);
    ArrivalCounts(k, h, xs);
    FollowRuns(k, h, xs);
    I.IssuesAreConserved(Whole(k), st, h.miss, Arrivals(k, h, xs));
  }

  lemma Memories(k: Core, st: State, b: Z486)
    requires Reached(k, st, b) && PoliteRun(k.c, st.from, st.log)
    ensures |b.z| == |st.r.ram| && k.c.ramBytes <= |b.z|
    ensures forall a :: InRam(k.c, a) && CarefulRun(k.c, st.from, st.log, a)
                        && AllSilent(Undone(st.s.m.exp, a)) && Stream(Writes(st.s.m.dut), a) == [] ==>
              b.z[a] == st.r.ram[a]
    ensures (forall a :: InRam(k.c, a) ==> CarefulRun(k.c, st.from, st.log, a)) && Drained(st.s) ==>
              b.z == st.r.ram && b.outs == Record(k, st).refOut
  {
    hide CosimRun.Run, ObserveAll, PoliteRun, CarefulRun, Undone, Stream, AllSilent, Drained, X87Marks;
    var o := Observed(st.from.m.ram, [], [], [], []);
    forall a | InRam(k.c, a) && CarefulRun(k.c, st.from, st.log, a)
               && AllSilent(Undone(st.s.m.exp, a)) && Stream(Writes(st.s.m.dut), a) == []
      ensures b.z[a] == st.r.ram[a]
    {
      BytesAgree(k.c, st.from, o, st.log, a);
    }
    if (forall a :: InRam(k.c, a) ==> CarefulRun(k.c, st.from, st.log, a)) && Drained(st.s) {
      DrainedRunsAgree(k.c, st.from, o, st.log);
    }
  }

  // ---- What the issues made it do ----

  function IssuesCame(xs: seq<Input>): seq<I.Issue> {
    if xs == [] then [] else (if xs[0].Issued? then [xs[0].i] else []) + IssuesCame(xs[1..])
  }

  function VectorsCame(xs: seq<Input>): seq<Byte> {
    if xs == [] then [] else (if xs[0].Acknowledged? then [xs[0].v] else []) + VectorsCame(xs[1..])
  }

  lemma ArrivalIsQuiet(k: Core, h: I.Host<State>, x: Input)
    requires Taken(k, h, x)
    ensures H.Quiet(Whole(k), h, ArrivalOf(k, h, x))
  {
    hide Step, Interrupt, Next;
  }

  lemma {:induction false} ArrivalsCame(k: Core, h: I.Host<State>, xs: seq<Input>)
    requires I.Whole(h) && Unreported(k, h, xs)
    ensures var arrivals := Arrivals(k, h, xs);
            && H.AllQuiet(Whole(k), h, arrivals)
            && H.IssuesOf(arrivals) == IssuesCame(xs) && H.VectorsOf(arrivals) == VectorsCame(xs)
    decreases xs
  {
    hide Whole, I.Process, Taken, H.Quiet;
    if xs != [] {
      var arrivals := Arrivals(k, h, xs);
      assert arrivals[0] == ArrivalOf(k, h, xs[0]) && arrivals[1..] == Arrivals(k, After(k, h, xs[0]).h, xs[1..]);
      ArrivalIsQuiet(k, h, xs[0]);
      ArrivalsCame(k, After(k, h, xs[0]).h, xs[1..]);
    }
  }

  /** Over every sequence of inputs of which none is reported: what the
      reference was made to do is what the notes say, each instruction for the
      issue done with next, with its count where it was cut, and its flags; the
      handlers entered are those of the vectors delivered; the vectors and the
      issues that came are those done with, in order, and those queued; and no
      register has differed at 64 accepted issues in a row. */
  lemma IssuesAreFollowed(k: Core, st: State, xs: seq<Input>)
    requires Unreported(k, StartingHost(st), xs)
    ensures var t := Follow(k, StartingHost(st), xs);
            var n, did := t.notes, t.h.r.did;
            && did == st.did + H.Ops(n) && H.Paired(n)
            && H.Entered(did) == H.Entered(st.did) + H.Delivered(n)
            && VectorsCame(xs) == H.Vectors(n) + t.h.vectors
            && IssuesCame(xs) == H.Disposed(n) + t.h.issues
            && I.Samples(H.Compared(n))
            && (forall j, m :: 0 <= j < I.REGISTERS && 0 <= m <= |H.Compared(n)| ==>
                  I.Samples(H.Compared(n)[..m]) && I.Streak(H.Compared(n)[..m], j) < I.PERSIST)
  {
    hide Step, Interrupt, Unreported, Arrivals, I.Follow, H.Ops, H.Paired, H.Entered, H.Delivered, H.Vectors;
    hide H.Disposed, H.Compared, H.AllQuiet;
    var h := StartingHost(st);
    var arrivals := Arrivals(k, h, xs);
    IsLawful(k);
    FollowRuns(k, h, xs);
    ArrivalsCame(k, h, xs);
    H.RunsFollow(Whole(k), h, arrivals);
    H.HandlersAreVectors(Whole(k), h, arrivals);
    assert [] + VectorsCame(xs) == VectorsCame(xs) && [] + IssuesCame(xs) == IssuesCame(xs);
    forall j, m | 0 <= j < I.REGISTERS && 0 <= m <= |H.Compared(Follow(k, h, xs).notes)|
      ensures var s := H.Compared(Follow(k, h, xs).notes);
              I.Samples(s) && I.Samples(s[..m]) && I.Streak(s[..m], j) < I.PERSIST
    {
      H.NoLongStreak(Whole(k), h, arrivals, j);
    }
    H.NoLongStreak(Whole(k), h, arrivals, 0);
  }
}
