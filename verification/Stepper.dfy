/** The reference's step as the program runs it: RAM, the undo log and the
    CPU are updated in place. */
module Stepper {
  import opened Platform
  import opened EventQueue
  import opened WriteMatcher
  import opened Paging
  import S = Speculation

  class Stepper {
    const env: S.Env
    const ram: array<Byte>
    const log: array<S.Change>
    var logCount: nat
    var cpu: Cpu
    var stage: seq<Ev>
    var outs: seq<Write>
    var ioCur: nat
    var devCur: nat
    var devLast: int
    var stall: bool
    var failed: bool
    var partial: seq<Write>
    var ninsn: nat

    ghost predicate Valid()
      reads this, ram, log
    {
      && log.Length == S.MAX_LOG && logCount <= log.Length
      && S.Good(env, Sim())
    }

    ghost function Sim(): S.Sim
      reads this, ram, log
      requires logCount <= log.Length
    {
      S.Sim(cpu, ram[..], log[..logCount], stage, outs, ioCur, devCur, devLast, stall, failed, partial)
    }

    /** store_byte with its hook and log. */
    method StoreByte(phys: int, val: Byte)
      requires Valid()
      modifies ram, log, this`logCount, this`stage
      ensures Valid() && Sim() == S.StoreLogged(env, old(Sim()), phys, val)
    {
      var i := phys % ram.Length;
      var silent := InRam(env.c, phys) && ram[i] == val;
      stage := stage + [Ev(phys, val, false, silent, env.fpu, 0)];
      if InRam(env.c, phys) {
        if ram[i] != val && logCount < S.MAX_LOG {
          log[logCount] := S.Change(i, ram[i]);
          logCount := logCount + 1;
        }
        ram[i] := val;
      }
    }

    /** The bus addresses of n bytes at lin; false on a fault, which is then
        in the CPU state. */
    method Translate(lin: Word32, n: nat, write: bool) returns (pas: seq<Word32>, ok: bool)
      requires Valid()
      modifies this`cpu
      ensures Valid()
      ensures var t := S.TranslateAll(env, old(cpu), ram[..], lin, n, write, []);
              if ok then t == S.Pages(pas) && cpu == old(cpu) else t == S.FaultAt(pas, cpu)
    {
      pas, ok := [], true;
      while |pas| < n
        invariant Valid() && |pas| <= n && cpu == old(cpu)
        invariant S.TranslateAll(env, cpu, ram[..], lin, n, write, pas)
               == S.TranslateAll(env, cpu, ram[..], lin, n, write, [])
        decreases n - |pas|
      {
        if cpu.abrt != 0 {
          return pas, false;
        }
        var at := S.At(lin, |pas|);
        match Walk(cpu, ram[..], env.a20, at, write) {
          case PageFault(code) =>
            cpu := Faulted(cpu, at, code);
            return pas, false;
          case Frame(phys) =>
            pas := pas + [phys];
        }
      }
    }

    /** write_n. */
    method WriteN(lin: Word32, bytes: seq<Byte>)
      requires Valid()
      modifies ram, log, this`logCount, this`stage, this`cpu, this`partial
      ensures Valid() && Sim() == S.WriteN(env, old(Sim()), lin, bytes)
    {
      var pas, ok := Translate(lin, |bytes|, true);
      if ok {
        StoreEach(pas, bytes);
      } else if |pas| > 0 && S.At(lin, |pas|) % PAGE == 0 {
        StorePartial(pas, bytes);
      }
    }

    method StoreEach(pas: seq<Word32>, bytes: seq<Byte>)
      requires Valid() && |pas| == |bytes|
      modifies ram, log, this`logCount, this`stage
      ensures Valid() && Sim() == S.StoreEach(env, old(Sim()), pas, bytes)
    {
      var j := 0;
      while j < |pas|
        invariant 0 <= j <= |pas| && Valid()
        invariant S.StoreEach(env, Sim(), pas[j..], bytes[j..]) == S.StoreEach(env, old(Sim()), pas, bytes)
      {
        assert pas[j..][1..] == pas[j + 1..] && bytes[j..][1..] == bytes[j + 1..];
        StoreByte(pas[j], bytes[j]);
        j := j + 1;
      }
    }

    method StorePartial(pas: seq<Word32>, bytes: seq<Byte>)
      requires Valid() && |pas| <= |bytes|
      modifies ram, log, this`logCount, this`stage, this`partial
      ensures Valid() && Sim() == S.StorePartial(env, old(Sim()), pas, bytes)
    {
      var j := 0;
      while j < |pas| && |partial| < S.MAX_PARTIAL
        invariant 0 <= j <= |pas| && Valid()
        invariant S.StorePartial(env, Sim(), pas[j..], bytes[j..]) == S.StorePartial(env, old(Sim()), pas, bytes)
      {
        assert pas[j..][1..] == pas[j + 1..] && bytes[j..][1..] == bytes[j + 1..];
        StoreByte(pas[j], bytes[j]);
        partial := partial + [Write(pas[j], bytes[j])];
        j := j + 1;
      }
    }

    /** undo_ram: the logged changes taken back, the last one first. */
    method UndoRam()
      requires Valid()
      modifies ram
      ensures Valid() && ram[..] == S.Undo(old(ram[..]), log[..logCount])
    {
      var k := logCount;
      ghost var l := log[..logCount];
      assert l[..k] == l;
      while k > 0
        invariant 0 <= k <= logCount && log[..logCount] == l && |ram[..]| == |old(ram[..])|
        invariant S.Undo(ram[..], l[..k]) == S.Undo(old(ram[..]), l)
      {
        k := k - 1;
        assert l[..k + 1][..k] == l[..k] && l[..k + 1][k] == log[k];
        ram[log[k].addr] := log[k].was;
      }
    }

    /** A byte the reference reads at a bus address. */
    method ReadByte(phys: Word32) returns (b: Byte)
      requires Valid()
      modifies this`devCur, this`devLast, this`stall, this`failed
      ensures Valid() && (Sim(), b) == S.ReadByte(env, old(Sim()), phys)
    {
      if DEV_LO <= phys < DEV_HI {
        while devCur < |env.devRd| && env.devRd[devCur].addr != phys && env.devRd[devCur].addr == devLast
          invariant Valid() && devCur <= |env.devRd| && Sim() == old(Sim()).(devCur := devCur)
          invariant S.SkipReplays(env.devRd, devCur, phys, devLast)
                 == S.SkipReplays(env.devRd, old(devCur), phys, devLast)
        {
          devCur := devCur + 1;
        }
        if devCur == |env.devRd| {
          stall := true;
          return 0xFF;
        }
        devLast := phys;
        if env.devRd[devCur].addr != phys {
          failed := true;
        }
        b := env.devRd[devCur].val;
        devCur := devCur + 1;
      } else if phys >= env.c.ramBytes {
        b := 0xFF;
      } else {
        b := ram[phys % ram.Length];
      }
    }

    /** read_n. */
    method ReadN(lin: Word32, n: nat) returns (resp: S.Resp)
      requires Valid()
      modifies this`cpu, this`devCur, this`devLast, this`stall, this`failed
      ensures Valid() && S.Got(Sim(), resp) == S.ReadN(env, old(Sim()), lin, n, [])
    {
      var got: seq<Byte> := [];
      while |got| < n
        invariant Valid() && |got| <= n
        invariant S.ReadN(env, Sim(), lin, n, got) == S.ReadN(env, old(Sim()), lin, n, [])
        decreases n - |got|
      {
        if cpu.abrt != 0 {
          return S.Ones;
        }
        var at := S.At(lin, |got|);
        match Walk(cpu, ram[..], env.a20, at, false) {
          case PageFault(code) =>
            cpu := Faulted(cpu, at, code);
            return S.Ones;
          case Frame(phys) =>
            var b := ReadByte(phys);
            got := got + [b];
        }
      }
      return S.Bytes(got);
    }

    /** io_in. */
    method InN(port: Word16, n: nat) returns (resp: S.Resp)
      requires Valid()
      modifies this`ioCur, this`stall, this`failed
      ensures Valid() && S.Got(Sim(), resp) == S.InN(env, old(Sim()), port, n, [])
    {
      var got: seq<Byte> := [];
      while |got| < n
        invariant Valid() && |got| <= n
        invariant S.InN(env, Sim(), port, n, got) == S.InN(env, old(Sim()), port, n, [])
        decreases n - |got|
      {
        if ioCur == |env.ioRd| {
          stall := true;
          return S.Ones;
        }
        var e := env.ioRd[ioCur];
        if e.addr != (port + |got|) % 0x1_0000 {
          failed := true;
        }
        ioCur := ioCur + 1;
        got := got + [e.val];
      }
      return S.Bytes(got);
    }

    /** The program run to its end, access by access. */
    method Exec(p: S.Program)
      requires Valid()
      modifies ram, log, this`logCount, this`stage, this`cpu, this`partial, this`outs
      modifies this`ioCur, this`devCur, this`devLast, this`stall, this`failed
      ensures Valid() && Sim() == S.Exec(env, p, old(Sim()), p.length)
    {
      var left: nat := p.length;
      while left > 0
        invariant Valid()
        invariant S.Exec(env, p, Sim(), left) == S.Exec(env, p, old(Sim()), p.length)
      {
        var a := p.act(cpu);
        if a.Stop? {
          return;
        }
        Perform(p, a);
        left := left - 1;
      }
    }

    method Perform(p: S.Program, a: S.Action)
      requires Valid()
      modifies ram, log, this`logCount, this`stage, this`cpu, this`partial, this`outs
      modifies this`ioCur, this`devCur, this`devLast, this`stall, this`failed
      ensures Valid() && Sim() == S.Perform(env, p, old(Sim()), a)
    {
      match a {
        case Read(lin, n) =>
          var resp := ReadN(lin, n);
          cpu := p.resume(cpu, resp);
        case Store(lin, bytes) =>
          WriteN(lin, bytes);
          cpu := p.resume(cpu, S.Ones);
        case In(port, size) =>
          var resp := InN(port, size);
          cpu := p.resume(cpu, resp);
        case Out(port, bytes) =>
          outs := outs + S.OutN(port, bytes);
          cpu := p.resume(cpu, S.Ones);
        case Stop =>
      }
    }

    /** The first page's bytes of a split write, stored again. */
    method StorePartialAgain()
      requires Valid()
      modifies ram, log, this`logCount, this`stage
      ensures Valid()
      ensures Stored(ram[..], stage) == StoreAll(env.c, Stored(old(ram[..]), old(stage)), partial, env.fpu)
    {
      var j := 0;
      while j < |partial|
        invariant 0 <= j <= |partial| && Valid()
        invariant StoreAll(env.c, Stored(ram[..], stage), partial[j..], env.fpu)
               == StoreAll(env.c, Stored(old(ram[..]), old(stage)), partial, env.fpu)
      {
        assert partial[j..][1..] == partial[j + 1..];
        StoreByte(partial[j].addr, partial[j].val);
        j := j + 1;
      }
    }

    /** The step's own state, cleared. */
    method Begin(ghost r: S.Ref)
      requires Valid() && S.Sane(env, r) && r.cpu == cpu && r.ram == ram[..] && r.devLast == devLast
      modifies this
      ensures Valid() && Sim() == S.Begin(env, r) && ninsn == old(ninsn)
    {
      hide S.StoreLogged, S.WriteN;
      cpu, logCount, stage, outs := cpu.(abrt := 0), 0, [], [];
      ioCur, devCur, stall, failed, partial := 0, 0, false, false, [];
      assert log[..logCount] == [];
    }

    /** ENTER's probe of the stack top; says whether it faulted. */
    method Probe(i: S.Instr) returns (probed: bool)
      requires Valid()
      modifies this`cpu
      ensures Valid() && Sim() == S.Probe(env, i, old(Sim()))
      ensures probed == (old(cpu).abrt == 0 && cpu.abrt != 0)
    {
      if cpu.abrt != 0 {
        return false;
      }
      var top := i.top(cpu);
      var pas, ok := Translate(top.0, top.1, true);
      return cpu.abrt != 0;
    }

    /** The state a fault is delivered in, with the attempt's RAM, log and
        stage still in place; before is the CPU's snapshot. */
    method Settle(i: S.Instr, before: Cpu, probed: bool, ghost r: S.Ref)
      requires Valid() && S.Sane(env, r) && before == r.cpu
      requires Sim() == S.Attempt(env, i, r) && probed == S.ProbeFaulted(env, i, r)
      modifies ram, log, this`logCount, this`stage, this`outs, this`cpu
      ensures Valid() && logCount == 0 && Sim() == S.FaultState(env, i, r).(log := [])
    {
      hide S.Attempt, S.ProbeFaulted, S.Undo, StoreAll;
      if !i.rep {
        if !probed {
          UndoRam();
          stage := [];
        }
        cpu := before.(cr2 := cpu.cr2, abrtError := cpu.abrtError);
        outs := [];
        StorePartialAgain();
      }
      logCount := 0;
    }

    /** A stalled attempt taken back. */
    method Stalled(before: Cpu) returns (v: S.Verdict)
      requires Valid() && stall
      modifies ram, this`cpu, this`stage, this`outs
      ensures Valid() && v == S.Stalled(S.Ref(before, S.Undo(old(ram[..]), log[..logCount]), ninsn,
                                              env.ioRd, env.devRd, devLast, failed))
      ensures cpu == v.r.cpu && ram[..] == v.r.ram && stage == [] && outs == []
    {
      UndoRam();
      cpu, stage, outs := before, [], [];
      return S.Stalled(S.Ref(cpu, ram[..], ninsn, env.ioRd, env.devRd, devLast, failed));
    }

    /** A fault delivered. */
    method Fault(i: S.Instr, before: Cpu, probed: bool, ghost r: S.Ref) returns (v: S.Verdict)
      requires Valid() && S.Sane(env, r) && before == r.cpu && ninsn == r.ninsn
      requires Sim() == S.Attempt(env, i, r) && probed == S.ProbeFaulted(env, i, r)
      modifies ram, log, this
      ensures Valid()
      ensures var d := S.Deliver(env, i, S.FaultState(env, i, r), old(cpu).abrt);
              v == (if d.cpu.abrt != 0 || d.failed then S.Failed
                    else S.Completed(S.Ref(d.cpu, d.ram, r.ninsn + 1, [], [], d.devLast, false), d.stage,
                          d.outs, old(cpu).abrt))
      ensures v.Completed? ==> Holds(v.r, v.stage, v.outs)
    {
      hide S.Attempt, S.ProbeFaulted, S.FaultState, S.Exec;
      var vec := cpu.abrt;
      Settle(i, before, probed, r);
      cpu := cpu.(abrt := 0);
      Exec(i.deliver(vec));
      if cpu.abrt != 0 || failed {
        return S.Failed;
      }
      ninsn := ninsn + 1;
      return S.Completed(S.Ref(cpu, ram[..], ninsn, [], [], devLast, false), stage, outs, vec);
    }

    ghost predicate Holds(r: S.Ref, staged: seq<Ev>, out: seq<Write>)
      reads this, ram
    {
      && cpu == r.cpu && ram[..] == r.ram && ninsn == r.ninsn && devLast == r.devLast
      && stage == staged && outs == out
    }

    ghost function Ref(): S.Ref
      reads this, ram
    {
      S.Ref(cpu, ram[..], ninsn, env.ioRd, env.devRd, devLast, failed)
    }

    /** The instruction without a fault. */
    method Complete() returns (v: S.Verdict)
      requires Valid()
      modifies this`ninsn
      ensures Valid()
      ensures v == if failed then S.Failed
                   else S.Completed(S.Ref(cpu, ram[..], old(ninsn) + 1, env.ioRd[ioCur..], env.devRd[devCur..],
                         devLast, false),
                                    stage, outs, 0)
      ensures v.Completed? ==> Holds(v.r, v.stage, v.outs)
    {
      if failed {
        return S.Failed;
      }
      ninsn := ninsn + 1;
      return S.Completed(S.Ref(cpu, ram[..], ninsn, env.ioRd[ioCur..], env.devRd[devCur..], devLast, false),
            stage, outs, 0);
    }

    /** The instruction run from a clean start, up to its verdict. */
    method Attempt(i: S.Instr, ghost r: S.Ref) returns (probed: bool)
      requires Valid() && S.Sane(env, r) && r == Ref()
      modifies ram, log, this
      ensures Valid() && Sim() == S.Attempt(env, i, r) && probed == S.ProbeFaulted(env, i, r)
      ensures ninsn == old(ninsn)
    {
      Begin(r);
      Exec(i.body);
      probed := Probe(i);
    }

    /** run: one step, undone when it stalls. */
    method Step(i: S.Instr) returns (v: S.Verdict)
      requires Valid()
      modifies ram, log, this
      ensures Valid() && v == S.Run(env, i, old(Ref()))
      ensures v.Completed? ==> Holds(v.r, v.stage, v.outs)
      ensures v.Stalled? ==> Holds(v.r, [], [])
    {
      if failed {
        return S.Failed;
      }
      ghost var r := Ref();
      var before := cpu;
      var probed := Attempt(i, r);
      if stall {
        v := Stalled(before);
      } else if cpu.abrt != 0 {
        v := Fault(i, before, probed, r);
      } else {
        v := Complete();
      }
    }
  }
}
