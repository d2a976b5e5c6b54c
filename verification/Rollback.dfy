/** Why a step that is undone leaves no trace: the undo log, the staged
    writes and the read positions of a speculation. */
module Rollback {
  import opened Platform
  import opened EventQueue
  import opened WriteMatcher
  import opened Paging
  import opened Speculation
  import RunSoundness

  // ---- The log against the stores it logs ----

  predicate Logged(log: seq<Change>, a: int) {
    exists k :: 0 <= k < |log| && log[k].addr == a
  }

  /** Each byte's first entry holds the value it had at the start. */
  ghost predicate FirstIs(start: seq<Byte>, log: seq<Change>) {
    forall k :: 0 <= k < |log| && !Logged(log[..k], log[k].addr) ==>
      log[k].addr < |start| && log[k].was == start[log[k].addr]
  }

  ghost predicate OthersUnchanged(start: seq<Byte>, ram: seq<Byte>, log: seq<Change>)
    requires |ram| == |start|
  {
    forall a :: 0 <= a < |ram| && !Logged(log, a) ==> ram[a] == start[a]
  }

  lemma {:induction false} UndoAt(start: seq<Byte>, ram: seq<Byte>, log: seq<Change>, a: nat)
    requires |ram| == |start| && a < |ram| && FirstIs(start, log)
    requires forall k :: 0 <= k < |log| ==> log[k].addr < |ram|
    ensures Undo(ram, log)[a] == if Logged(log, a) then start[a] else ram[a]
    decreases log
  {
    if log != [] {
      var n := |log| - 1;
      var last, rest := log[n], log[..n];
      FirstIsPrefix(start, log);
      LoggedLast(log, a);
      hide FirstIs, Logged;
      UndoAt(start, ram[last.addr := last.was], rest, a);
    }
  }

  lemma FirstIsPrefix(start: seq<Byte>, log: seq<Change>)
    requires FirstIs(start, log) && log != []
    ensures var last, rest := log[|log| - 1], log[..|log| - 1];
            FirstIs(start, rest)
            && (!Logged(rest, last.addr) ==> last.addr < |start| && last.was == start[last.addr])
  {
    hide Logged;
    var rest := log[..|log| - 1];
    assert forall k :: 0 <= k < |rest| ==> rest[..k] == log[..k] && rest[k] == log[k];
  }

  lemma LoggedLast(log: seq<Change>, a: int)
    requires log != []
    ensures Logged(log, a) <==> Logged(log[..|log| - 1], a) || log[|log| - 1].addr == a
  {
    assert forall k :: 0 <= k < |log| - 1 ==> log[..|log| - 1][k] == log[k];
  }

  /** The undo restores RAM exactly when every byte the log does not mention
      is unchanged. */
  lemma UndoRestoresIff(start: seq<Byte>, ram: seq<Byte>, log: seq<Change>)
    requires |ram| == |start| && FirstIs(start, log)
    requires forall k :: 0 <= k < |log| ==> log[k].addr < |ram|
    ensures Undo(ram, log) == start <==> OthersUnchanged(start, ram, log)
  {
    forall a | 0 <= a < |ram|
      ensures Undo(ram, log)[a] == if Logged(log, a) then start[a] else ram[a]
    {
      UndoAt(start, ram, log, a);
    }
  }

  /** How many of the writes ws change the byte they write. */
  function Changes(c: Config, s: Stored, ws: seq<Write>, fpu: bool): nat
    requires 0 < |s.ram| && c.ramBytes <= |s.ram|
    decreases ws
  {
    if ws == [] then 0
    else
      var w := ws[0];
      (if InRam(c, w.addr) && s.ram[Index(s.ram, w.addr)] != w.val then 1 else 0)
      + Changes(c, StoreByte(c, s, w.addr, w.val, fpu), ws[1..], fpu)
  }

  /** s came from `base` by storing the writes ws, with its log to match:
      complete as long as no more than MAX_LOG of them changed a byte. */
  ghost predicate Followed(env: Env, base: Stored, s: Sim, ws: seq<Write>)
  {
    && Good(env, s) && 0 < |base.ram| == |s.ram|
    && StoreAll(env.c, base, ws, env.fpu) == Stored(s.ram, s.stage)
    && FirstIs(base.ram, s.log)
    && |s.log| <= Changes(env.c, base, ws, env.fpu)
    && (|s.log| == Changes(env.c, base, ws, env.fpu) || |s.log| == MAX_LOG)
    && (|s.log| == Changes(env.c, base, ws, env.fpu) ==> OthersUnchanged(base.ram, s.ram, s.log))
  }

  lemma {:induction false} StoreAllAppend(c: Config, s: Stored, ws: seq<Write>, w: Write, fpu: bool)
    requires 0 < |s.ram| && c.ramBytes <= |s.ram|
    ensures var t := StoreAll(c, s, ws, fpu);
            && StoreAll(c, s, ws + [w], fpu) == StoreByte(c, t, w.addr, w.val, fpu)
            && Changes(c, s, ws + [w], fpu) == Changes(c, s, ws, fpu)
               + (if InRam(c, w.addr) && t.ram[Index(t.ram, w.addr)] != w.val then 1 else 0)
    decreases ws
  {
    if ws == [] {
      assert ([] + [w])[1..] == [];
    } else {
      assert (ws + [w])[1..] == ws[1..] + [w];
      StoreAllAppend(c, StoreByte(c, s, ws[0].addr, ws[0].val, fpu), ws[1..], w, fpu);
    }
  }

  lemma FollowedStore(env: Env, base: Stored, s: Sim, ws: seq<Write>, w: Write)
    requires Followed(env, base, s, ws) && 0 <= w.addr < 0x1_0000_0000
    ensures Followed(env, base, StoreLogged(env, s, w.addr, w.val), ws + [w])
  {
    hide StoreAll, Changes, FirstIs, OthersUnchanged, Logged;
    StoreAllAppend(env.c, base, ws, w, env.fpu);
    var i := Index(s.ram, w.addr);
    if InRam(env.c, w.addr) && s.ram[i] != w.val {
      if |s.log| < MAX_LOG {
        ChangeLogged(base.ram, s.ram, s.log, i, w.val);
      }
    } else if InRam(env.c, w.addr) {
      assert s.ram[i := w.val] == s.ram;
    }
  }

  /** One more change, logged. */
  lemma ChangeLogged(start: seq<Byte>, ram: seq<Byte>, log: seq<Change>, i: nat, val: Byte)
    requires |ram| == |start| && i < |ram| && FirstIs(start, log) && OthersUnchanged(start, ram, log)
    ensures var log' := log + [Change(i, ram[i])];
            FirstIs(start, log') && OthersUnchanged(start, ram[i := val], log')
  {
    var n, log' := |log|, log + [Change(i, ram[i])];
    assert forall k :: 0 <= k <= n ==> log'[..k] == log[..k];
    assert forall a :: Logged(log', a) <==> Logged(log, a) || a == i by {
      assert log'[n].addr == i;
      assert forall k :: 0 <= k < n ==> log'[k] == log[k];
    }
  }

  lemma {:induction false} FollowedEach(env: Env, base: Stored, s: Sim, ws: seq<Write>, pas: seq<Word32>,
        bytes: seq<Byte>)
    returns (ws': seq<Write>)
    requires Followed(env, base, s, ws) && |pas| == |bytes|
    ensures Followed(env, base, StoreEach(env, s, pas, bytes), ws')
    decreases pas
  {
    if pas == [] {
      ws' := ws;
    } else {
      var w := Write(pas[0], bytes[0]);
      FollowedStore(env, base, s, ws, w);
      ws' := FollowedEach(env, base, StoreLogged(env, s, pas[0], bytes[0]), ws + [w], pas[1..], bytes[1..]);
    }
  }

  lemma {:induction false} FollowedPartial(env: Env, base: Stored, s: Sim, ws: seq<Write>, pas: seq<Word32>,
        bytes: seq<Byte>)
    returns (ws': seq<Write>)
    requires Followed(env, base, s, ws) && |pas| <= |bytes|
    ensures Followed(env, base, StorePartial(env, s, pas, bytes), ws')
    decreases pas
  {
    if pas == [] || |s.partial| >= MAX_PARTIAL {
      ws' := ws;
    } else {
      var w := Write(pas[0], bytes[0]);
      FollowedStore(env, base, s, ws, w);
      var s1 := StoreLogged(env, s, pas[0], bytes[0]);
      ws' := FollowedPartial(env, base, s1.(partial := s1.partial + [w]), ws + [w], pas[1..], bytes[1..]);
    }
  }

  lemma ReadKeepsStage(env: Env, s: Sim, lin: Word32, n: nat, got: seq<Byte>)
    requires Good(env, s) && |got| <= n
    ensures ReadN(env, s, lin, n, got).s.stage == s.stage
    decreases n - |got|
  {
  }

  lemma InKeepsStage(env: Env, s: Sim, port: Word16, n: nat, got: seq<Byte>)
    requires Good(env, s) && |got| <= n
    ensures InN(env, s, port, n, got).s.stage == s.stage
    decreases n - |got|
  {
  }

  lemma FollowedPerform(env: Env, p: Program, base: Stored, s: Sim, ws: seq<Write>, a: Action)
    returns (ws': seq<Write>)
    requires Followed(env, base, s, ws)
    ensures Followed(env, base, Perform(env, p, s, a), ws')
  {
    hide ReadN, InN, WriteN, StoreAll;
    ws' := ws;
    match a
    case Read(lin, n) => ReadKeepsStage(env, s, lin, n, []);
    case In(port, size) => InKeepsStage(env, s, port, size, []);
    case Store(lin, bytes) => ws' := FollowedWriteN(env, base, s, ws, lin, bytes);
    case _ =>
  }

  lemma FollowedWriteN(env: Env, base: Stored, s: Sim, ws: seq<Write>, lin: Word32, bytes: seq<Byte>)
    returns (ws': seq<Write>)
    requires Followed(env, base, s, ws)
    ensures Followed(env, base, WriteN(env, s, lin, bytes), ws')
  {
    hide StoreAll, TranslateAll;
    ws' := ws;
    match TranslateAll(env, s.cpu, s.ram, lin, |bytes|, true, []) {
      case Pages(pas) => ws' := FollowedEach(env, base, s, ws, pas, bytes);
      case FaultAt(pas, cpu) =>
        if |pas| > 0 && At(lin, |pas|) % PAGE == 0 {
          ws' := FollowedPartial(env, base, s.(cpu := cpu), ws, pas, bytes);
        }
    }
  }

  lemma {:induction false} FollowedExec(env: Env, p: Program, base: Stored, s: Sim, ws: seq<Write>, left: nat)
    returns (ws': seq<Write>)
    requires Followed(env, base, s, ws)
    ensures Followed(env, base, Exec(env, p, s, left), ws')
    decreases left
  {
    hide Perform;
    var a := p.act(s.cpu);
    if left == 0 || a.Stop? {
      ws' := ws;
    } else {
      var ws1 := FollowedPerform(env, p, base, s, ws, a);
      ws' := FollowedExec(env, p, base, Perform(env, p, s, a), ws1, left - 1);
    }
  }

  /** The staged writes list the stores, in order. */
  lemma {:induction false} StagedWrites(c: Config, s: Stored, ws: seq<Write>, fpu: bool)
    requires 0 < |s.ram| && c.ramBytes <= |s.ram|
    ensures RunSoundness.Writes(StoreAll(c, s, ws, fpu).stage) == RunSoundness.Writes(s.stage) + ws
    decreases ws
  {
    if ws == [] {
    } else {
      var s1 := StoreByte(c, s, ws[0].addr, ws[0].val, fpu);
      StagedWrites(c, s1, ws[1..], fpu);
      assert RunSoundness.Writes(s1.stage) == RunSoundness.Writes(s.stage) + [ws[0]];
      assert [ws[0]] + ws[1..] == ws;
    }
  }

  // ---- A step's attempt ----

  /** The attempt's stores, as its staged writes list them. */
  function Stores(env: Env, i: Instr, r: Ref): seq<Write>
    requires Sane(env, r)
  {
    RunSoundness.Writes(Attempt(env, i, r).stage)
  }

  lemma AttemptFollowed(env: Env, i: Instr, r: Ref)
    requires Sane(env, r)
    ensures Followed(env, Stored(r.ram, []), Attempt(env, i, r), Stores(env, i, r))
  {
    hide Exec, TranslateAll, Followed;
    var base, s := Stored(r.ram, []), Begin(env, r);
    NothingFollowed(env, r);
    var ws := FollowedExec(env, i.body, base, s, [], i.body.length);
    var u := Exec(env, i.body, s, i.body.length);
    FollowedCpu(env, base, u, ws, Attempt(env, i, r).cpu);
    FollowedStage(env, base, u, ws);
  }

  lemma NothingFollowed(env: Env, r: Ref)
    requires Sane(env, r)
    ensures Followed(env, Stored(r.ram, []), Begin(env, r), [])
  {
  }

  lemma FollowedCpu(env: Env, base: Stored, s: Sim, ws: seq<Write>, cpu: Cpu)
    requires Followed(env, base, s, ws)
    ensures Followed(env, base, s.(cpu := cpu), ws)
  {
    hide StoreAll, Changes, FirstIs, OthersUnchanged;
  }

  lemma FollowedStage(env: Env, base: Stored, s: Sim, ws: seq<Write>)
    requires Followed(env, base, s, ws) && base.stage == []
    ensures RunSoundness.Writes(s.stage) == ws
  {
    hide Changes, FirstIs, OthersUnchanged;
    StagedWrites(env.c, base, ws, env.fpu);
    assert RunSoundness.Writes([]) + ws == ws;
  }

  /** How many bytes the attempt changes, a byte changed twice counted twice. */
  function ChangeCount(env: Env, i: Instr, r: Ref): nat
    requires Sane(env, r)
  {
    Changes(env.c, Stored(r.ram, []), Stores(env, i, r), env.fpu)
  }

  /** Every byte that the attempt leaves changed is in the log. */
  ghost predicate AllLogged(env: Env, i: Instr, r: Ref)
    requires Sane(env, r)
  {
    var s := Attempt(env, i, r);
    |s.ram| == |r.ram| && OthersUnchanged(r.ram, s.ram, s.log)
  }

  /** Undoing an attempt gives back the RAM it started from exactly when every
      byte it changed is in the log; it always does when the attempt makes at
      most MAX_LOG changes. */
  lemma AttemptUndone(env: Env, i: Instr, r: Ref)
    requires Sane(env, r)
    ensures var s := Attempt(env, i, r);
            && (Undo(s.ram, s.log) == r.ram <==> AllLogged(env, i, r))
            && (ChangeCount(env, i, r) <= MAX_LOG ==> AllLogged(env, i, r))
  {
    AttemptFollowed(env, i, r);
    var s := Attempt(env, i, r);
    UndoRestoresIff(r.ram, s.ram, s.log);
  }

  /** The limit is real: with the log full, one more byte changed for the
      first time is not given back. */
  lemma FullLogLosesAByte(env: Env, base: Stored, s: Sim, ws: seq<Write>, phys: Word32, val: Byte)
    requires Followed(env, base, s, ws) && |s.log| == MAX_LOG == Changes(env.c, base, ws, env.fpu)
    requires InRam(env.c, phys) && !Logged(s.log, phys) && s.ram[phys] != val
    ensures Undo(s.ram, s.log) == base.ram
    ensures var t := StoreLogged(env, s, phys, val);
            Undo(t.ram, t.log) != base.ram && Undo(t.ram, t.log)[phys] == val
  {
    UndoRestoresIff(base.ram, s.ram, s.log);
    RunSoundness.IndexInRam(s.ram, phys);
    UndoAt(base.ram, StoreLogged(env, s, phys, val).ram, s.log, phys);
  }

  // ---- Stalls ----

  /** A stalled step changes nothing but the memory of the last device read
      (and a pending error, if it read out of order). */
  lemma StallRestores(env: Env, i: Instr, r: Ref)
    requires Sane(env, r) && Run(env, i, r).Stalled?
    ensures var s, r' := Attempt(env, i, r), Run(env, i, r).r;
            && r' == r.(ram := r'.ram, devLast := s.devLast, err := s.failed)
            && (r'.ram == r.ram <==> AllLogged(env, i, r))
  {
    AttemptUndone(env, i, r);
  }

  // ---- Faults ----

  /** Precise faults. An instruction that faults, other than a repeated string
      or an ENTER that completed its pushes, leaves RAM and the staged writes
      as they were plus exactly the first-page bytes recorded in `partial`,
      stored in order; no output; and the CPU state as it was but for the
      fault's address and error code. */
  lemma FaultsArePrecise(env: Env, i: Instr, r: Ref)
    requires Sane(env, r) && Attempt(env, i, r).cpu.abrt != 0
    requires !i.rep && !ProbeFaulted(env, i, r)
    requires AllLogged(env, i, r)
    ensures var s, f := Attempt(env, i, r), FaultState(env, i, r);
            && Stored(f.ram, f.stage) == StoreAll(env.c, Stored(r.ram, []), s.partial, env.fpu)
            && f.outs == []
            && f.cpu == r.cpu.(cr2 := s.cpu.cr2, abrtError := s.cpu.abrtError)
  {
    AttemptUndone(env, i, r);
  }

  /** Whatever the outcome, what a completed step commits is the list of the
      stores that carried the reference's RAM to its new contents: a step of
      the co-simulation's state machine. */
  lemma CompletedStepStores(env: Env, i: Instr, r: Ref)
    requires Sane(env, r) && Run(env, i, r).Completed?
    requires Run(env, i, r).fault != 0 && !i.rep && !ProbeFaulted(env, i, r) ==> AllLogged(env, i, r)
    ensures var v := Run(env, i, r);
            Stored(v.r.ram, v.stage) == StoreAll(env.c, Stored(r.ram, []), RunSoundness.Writes(v.stage), env.fpu)
  {
    AttemptFollowed(env, i, r);
    var base := Stored(r.ram, []);
    var s, v := Attempt(env, i, r), Run(env, i, r);
    if v.fault != 0 {
      var f := FaultState(env, i, r);
      var ws := Stores(env, i, r);
      if !i.rep && !ProbeFaulted(env, i, r) {
        FaultsArePrecise(env, i, r);
        ws := s.partial;
      } else if !i.rep {
        StoreAllConcat(env.c, base, ws, s.partial, env.fpu);
        ws := ws + s.partial;
      }
      DeliveryStores(env, i, base, f, ws, s.cpu.abrt);
    }
  }

  lemma {:induction false} StoreAllConcat(c: Config, s: Stored, p: seq<Write>, q: seq<Write>, fpu: bool)
    requires 0 < |s.ram| && c.ramBytes <= |s.ram|
    ensures StoreAll(c, s, p + q, fpu) == StoreAll(c, StoreAll(c, s, p, fpu), q, fpu)
    decreases p
  {
    if p == [] {
      assert p + q == q;
    } else {
      assert (p + q)[1..] == p[1..] + q;
      StoreAllConcat(c, StoreByte(c, s, p[0].addr, p[0].val, fpu), p[1..], q, fpu);
    }
  }

  /** The handler's entry only adds stores. */
  lemma DeliveryStores(env: Env, i: Instr, base: Stored, f: Sim, ws: seq<Write>, vec: nat)
    requires Good(env, f) && 0 < |base.ram| == |f.ram| && base.stage == []
    requires StoreAll(env.c, base, ws, env.fpu) == Stored(f.ram, f.stage)
    ensures var d := Deliver(env, i, f, vec);
            Stored(d.ram, d.stage) == StoreAll(env.c, base, RunSoundness.Writes(d.stage), env.fpu)
  {
    var start := f.(cpu := f.cpu.(abrt := 0), log := []);
    var mid := Stored(f.ram, f.stage);
    assert StoreAll(env.c, mid, [], env.fpu) == mid;
    var ws' := FollowedExec(env, i.deliver(vec), mid, start, [], i.deliver(vec).length);
    StoreAllConcat(env.c, base, ws, ws', env.fpu);
    StagedWrites(env.c, base, ws + ws', env.fpu);
    assert RunSoundness.Writes([]) + (ws + ws') == ws + ws';
  }
}
