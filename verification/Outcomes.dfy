/** How a step ends: which faults there are, what each leaves behind, and when
    a step completes. */
module Outcomes {
  import opened Platform
  import opened EventQueue
  import opened WriteMatcher
  import opened Paging
  import opened PageTables
  import opened Speculation
  import opened Accesses
  import opened Rollback

  /** The instruction's own accesses, to their end. */
  function Ended(env: Env, i: Instr, r: Ref): (s: Sim)
    requires Sane(env, r)
    ensures Good(env, s) && |s.ram| == |r.ram|
  {
    Exec(env, i.body, Begin(env, r), i.body.length)
  }

  /** After an ENTER that has pushed without a fault its new stack top is
      probed, as a write: if the map permits all of its bytes nothing happens,
      or else the first that is not faults; a fault of its own comes first. */
  lemma StackTopProbed(env: Env, i: Instr, r: Ref, m: map<nat, Leaf>)
    requires Sane(env, r)
    requires var s := Ended(env, i, r); s.cpu.cr0 / 0x8000_0000 == 1 && LaidOut(s.ram, s.cpu.cr3, m)
    ensures var s, t := Ended(env, i, r), Attempt(env, i, r);
            var (lin, n) := i.top(s.cpu);
            && t == s.(cpu := t.cpu)
            && (s.cpu.abrt != 0 ==> t == s)
            && (s.cpu.abrt == 0 ==>
                  var k := PermittedFrom(s.cpu, m, lin, 0, n, true);
                  if k == n then t == s else FaultsAt(s.cpu, m, ByteAt(lin, k), true, t.cpu))
  {
    hide Exec, TranslateAll, PermittedFrom, FaultsAt, LaidOut;
    var s := Ended(env, i, r);
    if s.cpu.abrt == 0 {
      AccessByMap(env, s, i.top(s.cpu).0, i.top(s.cpu).1, true, m);
    }
  }

  /** A fault of an instruction's own accesses: they are undone, but for the
      first page's part of a split write, and the handler finds the CPU as it
      was but for the fault's address and error code. */
  lemma OwnFaultUndone(env: Env, i: Instr, r: Ref)
    requires Sane(env, r) && !i.rep && Ended(env, i, r).cpu.abrt != 0 && AllLogged(env, i, r)
    ensures var s, f := Attempt(env, i, r), FaultState(env, i, r);
            && s == Ended(env, i, r)
            && Stored(f.ram, f.stage) == StoreAll(env.c, Stored(r.ram, []), s.partial, env.fpu)
            && f.outs == [] && f.cpu == r.cpu.(cr2 := s.cpu.cr2, abrtError := s.cpu.abrtError)
  {
    hide Exec, StoreAll, AllLogged, FaultState;
    FaultsArePrecise(env, i, r);
  }

  /** A fault of the probe: ENTER's pushes stay in RAM and are committed; the
      handler finds the CPU as it was before them. */
  lemma ProbeKeepsPushes(env: Env, i: Instr, r: Ref)
    requires Sane(env, r) && !i.rep && Ended(env, i, r).cpu.abrt == 0 && Attempt(env, i, r).cpu.abrt != 0
    ensures var s, t, f := Ended(env, i, r), Attempt(env, i, r), FaultState(env, i, r);
            && (s.partial == [] ==> f.ram == s.ram && f.stage == s.stage)
            && f.outs == [] && f.cpu == r.cpu.(cr2 := t.cpu.cr2, abrtError := t.cpu.abrtError)
  {
    hide Exec;
  }

  /** A repeated string that faults keeps all that it has done. */
  lemma StringsKeep(env: Env, i: Instr, r: Ref)
    requires Sane(env, r) && i.rep
    ensures FaultState(env, i, r) == Attempt(env, i, r)
  {
  }

  /** When a step ends how. It stalls if data are missing. Without a fault it
      completes if z486 read what it reads, with what its accesses made, and
      the data left over are the next step's; with one, if the handler's entry
      neither faults nor differs, and all data are dropped. */
  lemma StepOutcomes(env: Env, i: Instr, r: Ref)
    requires Sane(env, r)
    ensures var s, v := Attempt(env, i, r), Run(env, i, r);
            var entered := Deliver(env, i, FaultState(env, i, r), s.cpu.abrt);
            && (v.Stalled? <==> !r.err && s.stall)
            && (v.Completed? <==>
                  !r.err && !s.stall
                  && if s.cpu.abrt == 0 then !s.failed else entered.cpu.abrt == 0 && !entered.failed)
            && (v.Completed? ==>
                  && v.fault == s.cpu.abrt && v.r.ninsn == r.ninsn + 1 && !v.r.err
                  && (v.fault == 0 ==>
                        && v.r.cpu == s.cpu && v.r.ram == s.ram && v.stage == s.stage && v.outs == s.outs
                        && r.ioRd == r.ioRd[..s.ioCur] + v.r.ioRd && r.devRd == r.devRd[..s.devCur] + v.r.devRd)
                  && (v.fault != 0 ==>
                        && v.r.cpu == entered.cpu && v.r.ram == entered.ram && v.stage == entered.stage
                        && v.outs == entered.outs && v.r.ioRd == [] && v.r.devRd == []))
  {
    hide Attempt, Deliver, FaultState;
  }
}
