/** The co-simulation as a state machine over the events it is fed: the
    reference's instructions, z486's bus writes, and the other bus masters. */
module CosimRun {
  import opened Platform
  import opened EventQueue
  import opened WriteMatcher
  import opened MatcherSoundness

  /** Step: an instruction or interrupt of the reference, as the bytes it
      stores and outputs, in order. The rest are z486's or the system's. */
  datatype Event =
    | Step(stores: seq<Write>, outs: seq<Write>, fpu: bool)
    | DutWrite(phys: Word32, val: Byte)
    | DutOut(port: Word16, val: Byte)
    | Dma(phys: Word32, val: Byte)
    | Walker(phys: Word32, val: Byte)
    | SetA20(on: bool)

  datatype Machine = Machine(m: Match, expIo: seq<Write>, dutIo: seq<Write>, a20: bool, ninsn: nat)
  datatype Outcome = Running(s: Machine) | Diverged

  datatype IoReply = IoReply(expIo: seq<Write>, dutIo: seq<Write>, ok: bool)

  function MatchIo(expIo: seq<Write>, dutIo: seq<Write>, w: Write): IoReply {
    if expIo == [] then IoReply([], dutIo + [w], true)
    else if expIo[0] != w then IoReply(expIo, dutIo, false)
    else IoReply(expIo[1..], dutIo, true)
  }

  function MatchAllIo(expIo: seq<Write>, dutIo: seq<Write>, ws: seq<Write>): IoReply
    decreases ws
  {
    if ws == [] then IoReply(expIo, dutIo, true)
    else
      var r := MatchIo(expIo, dutIo, ws[0]);
      if r.ok then MatchAllIo(r.expIo, r.dutIo, ws[1..]) else r
  }

  /** A bus master's write: unchecked, and into any byte that exists. */
  function Poke(c: Config, ram: seq<Byte>, phys: int, val: Byte): (r: seq<Byte>)
    requires c.ramBytes <= |ram| && 0 <= phys
    ensures |r| == |ram|
  {
    if phys < c.ramBytes then ram[phys := val] else ram
  }

  predicate Fits(c: Config, s: Machine) {
    0 < |s.m.ram| && c.ramBytes <= |s.m.ram|
  }

  function Next(c: Config, s: Machine, e: Event): (r: Outcome)
    requires Fits(c, s)
    ensures r.Running? ==> |r.s.m.ram| == |s.m.ram|
  {
    match e
    case Step(stores, outs, fpu) =>
      var st := StoreAll(c, Stored(s.m.ram, []), stores, fpu);
      var r := Commit(c, s.m.(ram := st.ram), st.stage, s.ninsn + 1);
      var io := MatchAllIo(s.expIo + outs, [], s.dutIo);
      if r.ok && io.ok then Running(Machine(r.m, io.expIo, io.dutIo, s.a20, s.ninsn + 1)) else Diverged
    case DutWrite(phys, val) =>
      var r := MatchWrite(c, s.m, Write(PlatformPhys(s.a20, phys), val));
      if r.ok then Running(s.(m := r.m)) else Diverged
    case DutOut(port, val) =>
      var io := MatchIo(s.expIo, s.dutIo, Write(port, val));
      if io.ok then Running(s.(expIo := io.expIo, dutIo := io.dutIo)) else Diverged
    case Dma(phys, val) =>
      Running(s.(m := s.m.(ram := Poke(c, s.m.ram, phys, val))))
    case Walker(phys, val) =>
      Running(s.(m := s.m.(ram := Poke(c, s.m.ram, PlatformPhys(s.a20, phys), val))))
    case SetA20(on) =>
      Running(s.(a20 := on))
  }

  /** What an observer of the two machines' buses records: z486's memory, and
      both sides' memory and I/O writes. The matcher has no part in it. */
  datatype Observed = Observed(z: seq<Byte>, refW: seq<Write>, dutW: seq<Write>,
                               refOut: seq<Write>, dutOut: seq<Write>)

  function Observe(c: Config, a20: bool, o: Observed, e: Event): (r: Observed)
    requires c.ramBytes <= |o.z|
    ensures |r.z| == |o.z|
  {
    match e
    case Step(stores, outs, _) => o.(refW := o.refW + stores, refOut := o.refOut + outs)
    case DutWrite(phys, val) =>
      var w := Write(PlatformPhys(a20, phys), val);
      o.(z := Put(c, o.z, w), dutW := o.dutW + [w])
    case DutOut(port, val) => o.(dutOut := o.dutOut + [Write(port, val)])
    case Dma(phys, val) => o.(z := Poke(c, o.z, phys, val))
    case Walker(phys, val) => o.(z := Poke(c, o.z, PlatformPhys(a20, phys), val))
    case SetA20(_) => o
  }

  /** A whole run, or that it diverged. */
  function Run(c: Config, s: Machine, evs: seq<Event>): (r: Outcome)
    requires Fits(c, s)
    ensures r.Running? ==> |r.s.m.ram| == |s.m.ram|
    decreases evs
  {
    if evs == [] then Running(s)
    else
      var r := Next(c, s, evs[0]);
      if r.Running? then Run(c, r.s, evs[1..]) else Diverged
  }

  function ObserveAll(c: Config, a20: bool, o: Observed, evs: seq<Event>): (r: Observed)
    requires c.ramBytes <= |o.z|
    ensures |r.z| == |o.z|
    decreases evs
  {
    if evs == [] then o
    else ObserveAll(c, if evs[0].SetA20? then evs[0].on else a20, Observe(c, a20, o, evs[0]), evs[1..])
  }
}
