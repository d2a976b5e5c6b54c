/** One step of the reference as a speculation: an instruction runs on the
    data z486 has returned so far, and is undone when some is missing or when
    it faults. The instruction itself is any deterministic program of memory
    and port accesses. */
module Speculation {
  import opened Platform
  import opened EventQueue
  import opened WriteMatcher
  import opened Paging

  const MAX_LOG: nat := 4096
  const MAX_PARTIAL: nat := 4

  /** What a step is given: the configuration and z486's read data. */
  datatype Env = Env(c: Config, a20: bool, fpu: bool, ioRd: seq<Write>, devRd: seq<Write>)

  datatype Change = Change(addr: nat, was: Byte)

  /** The state an instruction works on: the CPU, RAM and its undo log, the
      step's staged writes and outputs, the tentative positions in the read
      data, and the first-page bytes of a split write that faulted. */
  datatype Sim = Sim(cpu: Cpu, ram: seq<Byte>, log: seq<Change>, stage: seq<Ev>, outs: seq<Write>,
                     ioCur: nat, devCur: nat, devLast: int, stall: bool, failed: bool, partial: seq<Write>)

  predicate Good(env: Env, s: Sim) {
    && 0 < |s.ram| && env.c.ramBytes <= |s.ram|
    && s.ioCur <= |env.ioRd| && s.devCur <= |env.devRd|
    && |s.log| <= MAX_LOG
    && (forall k :: 0 <= k < |s.log| ==> s.log[k].addr < |s.ram|)
  }

  // ---- Stores ----

  /** store_byte: staged for comparison; if it is RAM and changes, the old
      value is logged while the log has room. */
  function StoreLogged(env: Env, s: Sim, phys: int, val: Byte): (r: Sim)
    requires Good(env, s)
    ensures Good(env, r) && |r.ram| == |s.ram|
  {
    var i := Index(s.ram, phys);
    var st := StoreByte(env.c, Stored(s.ram, s.stage), phys, val, env.fpu);
    var log := if InRam(env.c, phys) && s.ram[i] != val && |s.log| < MAX_LOG then s.log + [Change(i, s.ram[i])]
               else s.log;
    s.(ram := st.ram, stage := st.stage, log := log)
  }

  function StoreEach(env: Env, s: Sim, pas: seq<Word32>, bytes: seq<Byte>): (r: Sim)
    requires Good(env, s) && |pas| == |bytes|
    ensures Good(env, r) && |r.ram| == |s.ram|
    decreases pas
  {
    if pas == [] then s else StoreEach(env, StoreLogged(env, s, pas[0], bytes[0]), pas[1..], bytes[1..])
  }

  /** The first page's bytes of a split write: stored, and remembered. */
  function StorePartial(env: Env, s: Sim, pas: seq<Word32>, bytes: seq<Byte>): (r: Sim)
    requires Good(env, s) && |pas| <= |bytes|
    ensures Good(env, r) && |r.ram| == |s.ram|
    decreases pas
  {
    if pas == [] || |s.partial| >= MAX_PARTIAL then s
    else
      var s1 := StoreLogged(env, s, pas[0], bytes[0]);
      StorePartial(env, s1.(partial := s1.partial + [Write(pas[0], bytes[0])]), pas[1..], bytes[1..])
  }

  /** Undoing the logged changes, the last one first. */
  function Undo(ram: seq<Byte>, log: seq<Change>): (r: seq<Byte>)
    requires forall k :: 0 <= k < |log| ==> log[k].addr < |ram|
    ensures |r| == |ram|
    decreases log
  {
    if log == [] then ram
    else
      var last := log[|log| - 1];
      Undo(ram[last.addr := last.was], log[..|log| - 1])
  }

  // ---- Translated accesses ----

  function At(lin: Word32, i: nat): Word32 {
    (lin + i) % 0x1_0000_0000
  }

  datatype Translated = Pages(pas: seq<Word32>) | FaultAt(pas: seq<Word32>, cpu: Cpu)

  /** The bus addresses of n bytes from lin + i on, up to a fault. While a
      fault is pending nothing is translated. */
  function TranslateAll(env: Env, cpu: Cpu, ram: seq<Byte>, lin: Word32, n: nat, write: bool,
        done: seq<Word32>): (r: Translated)
    requires ram != [] && |done| <= n
    ensures r.Pages? ==> |r.pas| == n
    ensures r.FaultAt? ==> |done| <= |r.pas| < n
    decreases n - |done|
  {
    var i := |done|;
    if i == n then Pages(done)
    else if cpu.abrt != 0 then FaultAt(done, cpu)
    else
      match Walk(cpu, ram, env.a20, At(lin, i), write)
      case PageFault(code) => FaultAt(done, Faulted(cpu, At(lin, i), code))
      case Frame(phys) => TranslateAll(env, cpu, ram, lin, n, write, done + [phys])
  }

  /** write_n: every byte is translated before any is stored, except that a
      fault on entering a second page leaves the first page's bytes. */
  function WriteN(env: Env, s: Sim, lin: Word32, bytes: seq<Byte>): (r: Sim)
    requires Good(env, s)
    ensures Good(env, r) && |r.ram| == |s.ram|
  {
    match TranslateAll(env, s.cpu, s.ram, lin, |bytes|, true, [])
    case Pages(pas) => StoreEach(env, s, pas, bytes)
    case FaultAt(pas, cpu) =>
      if |pas| > 0 && At(lin, |pas|) % PAGE == 0 then StorePartial(env, s.(cpu := cpu), pas, bytes)
      else s.(cpu := cpu)
  }

  /** What a read gives the program: its bytes, or all ones. */
  datatype Resp = Bytes(b: seq<Byte>) | Ones
  datatype Got = Got(s: Sim, resp: Resp)

  /** Past the entries that repeat the device read before. */
  function SkipReplays(devRd: seq<Write>, i: nat, phys: int, devLast: int): (r: nat)
    requires i <= |devRd|
    ensures i <= r <= |devRd|
    decreases |devRd| - i
  {
    if i < |devRd| && devRd[i].addr != phys && devRd[i].addr == devLast then
      SkipReplays(devRd, i + 1, phys, devLast)
    else i
  }

  /** rd_hook and the RAM behind it: one byte at a bus address. */
  function ReadByte(env: Env, s: Sim, phys: Word32): (r: (Sim, Byte))
    requires Good(env, s)
    ensures Good(env, r.0) && r.0.ram == s.ram && r.0.log == s.log
  {
    if DEV_LO <= phys < DEV_HI then
      var i := SkipReplays(env.devRd, s.devCur, phys, s.devLast);
      if i == |env.devRd| then (s.(devCur := i, stall := true), 0xFF)
      else
        (s.(devCur := i + 1, devLast := phys, failed := s.failed || env.devRd[i].addr != phys), env.devRd[i].val)
    else if phys >= env.c.ramBytes then (s, 0xFF)
    else (s, s.ram[Index(s.ram, phys)])
  }

  function ReadN(env: Env, s: Sim, lin: Word32, n: nat, got: seq<Byte>): (r: Got)
    requires Good(env, s) && |got| <= n
    ensures Good(env, r.s) && r.s.ram == s.ram && r.s.log == s.log
    decreases n - |got|
  {
    var i := |got|;
    if i == n then Got(s, Bytes(got))
    else if s.cpu.abrt != 0 then Got(s, Ones)
    else
      match Walk(s.cpu, s.ram, env.a20, At(lin, i), false)
      case PageFault(code) => Got(s.(cpu := Faulted(s.cpu, At(lin, i), code)), Ones)
      case Frame(phys) =>
        var r := ReadByte(env, s, phys);
        ReadN(env, r.0, lin, n, got + [r.1])
  }

  /** io_in: the next read data of consecutive ports. */
  function InN(env: Env, s: Sim, port: Word16, n: nat, got: seq<Byte>): (r: Got)
    requires Good(env, s) && |got| <= n
    ensures Good(env, r.s) && r.s.ram == s.ram && r.s.log == s.log
    decreases n - |got|
  {
    if |got| == n then Got(s, Bytes(got))
    else if s.ioCur == |env.ioRd| then Got(s.(stall := true), Ones)
    else
      var e := env.ioRd[s.ioCur];
      var s1 := s.(ioCur := s.ioCur + 1, failed := s.failed || e.addr != (port + |got|) % 0x1_0000);
      InN(env, s1, port, n, got + [e.val])
  }

  function OutN(port: Word16, bytes: seq<Byte>): seq<Write> {
    seq(|bytes|, i requires 0 <= i < |bytes| => Write((port + i) % 0x1_0000, bytes[i]))
  }

  // ---- Instructions ----

  datatype Action =
    | Read(lin: Word32, n: nat)
    | Store(lin: Word32, bytes: seq<Byte>)
    | In(port: Word16, size: nat)
    | Out(port: Word16, bytes: seq<Byte>)
    | Stop

  /** A program of at most `length` accesses: what it does next, and how a
      reply changes the CPU, depend on the CPU alone. */
  datatype Program = Program(act: Cpu -> Action, resume: (Cpu, Resp) -> Cpu, length: nat)

  /** One access, and the CPU's reaction to it. */
  function Perform(env: Env, p: Program, s: Sim, a: Action): (r: Sim)
    requires Good(env, s)
    ensures Good(env, r) && |r.ram| == |s.ram|
  {
    match a
    case Read(lin, n) =>
      var g := ReadN(env, s, lin, n, []);
      g.s.(cpu := p.resume(g.s.cpu, g.resp))
    case Store(lin, bytes) =>
      var s1 := WriteN(env, s, lin, bytes);
      s1.(cpu := p.resume(s1.cpu, Ones))
    case In(port, size) =>
      var g := InN(env, s, port, size, []);
      g.s.(cpu := p.resume(g.s.cpu, g.resp))
    case Out(port, bytes) =>
      s.(outs := s.outs + OutN(port, bytes), cpu := p.resume(s.cpu, Ones))
    case Stop => s
  }

  function Exec(env: Env, p: Program, s: Sim, left: nat): (r: Sim)
    requires Good(env, s)
    ensures Good(env, r) && |r.ram| == |s.ram|
    decreases left
  {
    var a := p.act(s.cpu);
    if left == 0 || a.Stop? then s else Exec(env, p, Perform(env, p, s, a), left - 1)
  }

  /** An instruction: its program, whether it is a repeated string operation,
      the stack bytes ENTER probes when it has completed (none for the other
      instructions), and how each fault is delivered. */
  datatype Instr = Instr(body: Program, rep: bool, top: Cpu -> (Word32, nat), deliver: nat -> Program)

  /** The reference between steps. */
  datatype Ref = Ref(cpu: Cpu, ram: seq<Byte>, ninsn: nat, ioRd: seq<Write>, devRd: seq<Write>, devLast: int,
                     err: bool)

  datatype Verdict =
    | Stalled(r: Ref)
    | Completed(r: Ref, stage: seq<Ev>, outs: seq<Write>, fault: nat)
    | Failed

  predicate Sane(env: Env, r: Ref) {
    0 < |r.ram| && env.c.ramBytes <= |r.ram| && env.ioRd == r.ioRd && env.devRd == r.devRd
  }

  function Begin(env: Env, r: Ref): (s: Sim)
    requires Sane(env, r)
    ensures Good(env, s)
  {
    Sim(r.cpu.(abrt := 0), r.ram, [], [], [], 0, 0, r.devLast, false, false, [])
  }

  /** The instruction run to its end, with ENTER's probe of the stack top. */
  function Attempt(env: Env, i: Instr, r: Ref): (s: Sim)
    requires Sane(env, r)
    ensures Good(env, s) && |s.ram| == |r.ram|
  {
    Probe(env, i, Exec(env, i.body, Begin(env, r), i.body.length))
  }

  function Probe(env: Env, i: Instr, s: Sim): (r: Sim)
    requires Good(env, s)
    ensures Good(env, r) && r == s.(cpu := r.cpu)
  {
    if s.cpu.abrt != 0 then s
    else
      var t := TranslateAll(env, s.cpu, s.ram, i.top(s.cpu).0, i.top(s.cpu).1, true, []);
      if t.FaultAt? then s.(cpu := t.cpu) else s
  }

  predicate ProbeFaulted(env: Env, i: Instr, r: Ref)
    requires Sane(env, r)
  {
    && Exec(env, i.body, Begin(env, r), i.body.length).cpu.abrt == 0
    && Attempt(env, i, r).cpu.abrt != 0
  }

  /** The state a fault is delivered in. A repeated string keeps its earlier
      elements and ENTER its pushes; any other instruction is undone, but for
      the first page's bytes of a split write. */
  function FaultState(env: Env, i: Instr, r: Ref): (s: Sim)
    requires Sane(env, r)
    ensures Good(env, s) && |s.ram| == |r.ram|
  {
    var s := Attempt(env, i, r);
    if i.rep then s
    else
      var cpu := r.cpu.(cr2 := s.cpu.cr2, abrtError := s.cpu.abrtError);
      var kept := ProbeFaulted(env, i, r);
      var s1 := s.(cpu := cpu, outs := [],
                   ram := if kept then s.ram else Undo(s.ram, s.log),
                   stage := if kept then s.stage else []);
      var st := StoreAll(env.c, Stored(s1.ram, s1.stage), s1.partial, env.fpu);
      s1.(ram := st.ram, stage := st.stage)
  }

  /** The handler's entry, from the state the fault is delivered in. Nothing
      reads the undo log from here on. */
  function Deliver(env: Env, i: Instr, s: Sim, vec: nat): (r: Sim)
    requires Good(env, s)
    ensures Good(env, r)
  {
    Exec(env, i.deliver(vec), s.(cpu := s.cpu.(abrt := 0), log := []), i.deliver(vec).length)
  }

  /** run: one step, undone if it stalls. */
  function Run(env: Env, i: Instr, r: Ref): Verdict
    requires Sane(env, r)
  {
    if r.err then Failed
    else
      var s := Attempt(env, i, r);
      if s.stall then
        Stalled(r.(ram := Undo(s.ram, s.log), devLast := s.devLast, err := s.failed))
      else if s.cpu.abrt == 0 then
        if s.failed then Failed
        else
          Completed(Ref(s.cpu, s.ram, r.ninsn + 1, r.ioRd[s.ioCur..], r.devRd[s.devCur..], s.devLast, false),
                    s.stage, s.outs, 0)
      else
        var d := Deliver(env, i, FaultState(env, i, r), s.cpu.abrt);
        if d.cpu.abrt != 0 || d.failed then Failed
        else Completed(Ref(d.cpu, d.ram, r.ninsn + 1, [], [], d.devLast, false), d.stage, d.outs, s.cpu.abrt)
  }
}
