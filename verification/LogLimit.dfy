/** The limit of the undo log, on a run: an instruction that changes 4097
    bytes and then waits for a device byte. */
module LogLimit {
  import opened Platform
  import opened EventQueue
  import opened WriteMatcher
  import opened Paging
  import opened Speculation
  import opened Rollback
  import RunSoundness

  const SIZE: nat := 4097

  function Filled(n: nat): (r: seq<Byte>)
    ensures |r| == SIZE
  {
    seq(SIZE, k => if k < n then 1 else 0)
  }

  function Changed(n: nat): seq<Change> {
    seq(n, k requires 0 <= k < n => Change(k, 0))
  }

  function Ones(n: nat): (r: seq<Byte>)
    ensures |r| == n
  {
    seq(n, _ => 1)
  }

  function Rising(from: nat, n: nat): (r: seq<Word32>)
    requires from + n <= SIZE
    ensures |r| == n
  {
    seq(n, k requires 0 <= k < n => from + k)
  }

  const ENV: Env := Env(Config(SIZE, false), true, false, [], [])

  /** Stores 4097 ones from address 0 on, then reads a device byte. */
  function FillAndWait(): Instr {
    Instr(Program((cpu: Cpu) => if cpu.core == 0 then Store(0, Ones(SIZE)) else if cpu.core == 1 then Read(DEV_LO, 1)
                                else Stop,
                  (cpu: Cpu, resp) => cpu.(core := cpu.core + 1), 2),
          false, cpu => (0, 0), vec => Program(cpu => Stop, (cpu, resp) => cpu, 0))
  }

  function Start(): Ref {
    Ref(Cpu(0, 0, 0, 0, false, false, 0, 0), Filled(0), 0, [], [], 0, false)
  }

  /** The state with n of the bytes stored. */
  predicate Storing(s: Sim, n: nat)
  {
    n <= SIZE && s.ram == Filled(n) && s.log == Changed(if n < MAX_LOG then n else MAX_LOG)
  }

  lemma StoreOneMore(s: Sim, n: nat)
    requires Good(ENV, s) && Storing(s, n) && n < SIZE
    ensures var t := StoreLogged(ENV, s, n, 1);
            Storing(t, n + 1) && t == s.(ram := t.ram, log := t.log, stage := t.stage)
  {
    RunSoundness.IndexInRam(s.ram, n);
    assert InRam(ENV.c, n);
    assert s.ram[n] == 0;
    assert s.ram[n := 1] == Filled(n + 1);
    if n < MAX_LOG {
      assert Changed(n) + [Change(n, 0)] == Changed(n + 1);
    }
  }

  lemma {:induction false} StoreTheRest(s: Sim, n: nat, m: nat)
    requires Good(ENV, s) && Storing(s, n) && n + m == SIZE
    ensures var t := StoreEach(ENV, s, Rising(n, m), Ones(m));
            Storing(t, SIZE) && t == s.(ram := t.ram, log := t.log, stage := t.stage)
    decreases m
  {
    hide Storing, Good;
    if m == 0 {
      assert Rising(n, 0) == [];
    } else {
      StoreOneMore(s, n);
      assert Rising(n, m)[0] == n && Rising(n, m)[1..] == Rising(n + 1, m - 1);
      assert Ones(m)[0] == 1 && Ones(m)[1..] == Ones(m - 1);
      StoreTheRest(StoreLogged(ENV, s, n, 1), n + 1, m - 1);
    }
  }

  /** Without paging an address below 4097 is its own. */
  lemma {:induction false} Flat(cpu: Cpu, ram: seq<Byte>, done: nat)
    requires ram != [] && cpu.abrt == 0 && cpu.cr0 == 0 && done <= SIZE
    ensures TranslateAll(ENV, cpu, ram, 0, SIZE, true, Rising(0, done)) == Pages(Rising(0, SIZE))
    decreases SIZE - done
  {
    if done < SIZE {
      assert At(0, done) == done && Walk(cpu, ram, true, done, true) == Frame(done);
      assert Rising(0, done) + [done] == Rising(0, done + 1);
      Flat(cpu, ram, done + 1);
    }
  }

  lemma FillAttempt()
    ensures var s := Attempt(ENV, FillAndWait(), Start());
            Storing(s, SIZE) && s.stall && !s.failed && s.devLast == 0
  {
    hide Perform, Storing, Filled, Changed, Ones, Probe;
    var i, s := FillAndWait(), Begin(ENV, Start());
    BeginsEmpty();
    Fills(s);
    var t := Perform(ENV, i.body, s, Store(0, Ones(SIZE)));
    assert i.body.act(s.cpu) == Store(0, Ones(SIZE));
    assert Exec(ENV, i.body, s, 2) == Exec(ENV, i.body, t, 1);
    WaitsForByte(i, t);
    StoringIs(t, Attempt(ENV, i, Start()));
  }

  lemma StoringIs(s: Sim, t: Sim)
    requires Storing(s, SIZE) && t.ram == s.ram && t.log == s.log
    ensures Storing(t, SIZE)
  {
  }

  lemma Fills(s: Sim)
    requires Good(ENV, s) && s.ram != [] && Storing(s, 0) && s.cpu.abrt == 0 && s.cpu.cr0 == 0 && s.cpu.core == 0
    ensures var t := Perform(ENV, FillAndWait().body, s, Store(0, Ones(SIZE)));
            Storing(t, SIZE) && t == s.(cpu := s.cpu.(core := 1), ram := t.ram, log := t.log, stage := t.stage)
  {
    hide StoreEach, TranslateAll, Storing, Filled, Changed, Ones, Good;
    Flat(s.cpu, s.ram, 0);
    assert Rising(0, 0) == [];
    StoreTheRest(s, 0, SIZE);
    var s1 := StoreEach(ENV, s, Rising(0, SIZE), Ones(SIZE));
    assert WriteN(ENV, s, 0, Ones(SIZE)) == s1;
    StoringIs(s1, s1.(cpu := s1.cpu.(core := 1)));
  }

  lemma BeginsEmpty()
    ensures Storing(Begin(ENV, Start()), 0)
  {
  }

  /** The device byte has not been returned. */
  lemma ReadWaits(t: Sim)
    requires Good(ENV, t) && t.cpu.abrt == 0 && t.cpu.cr0 == 0 && t.devCur == 0
    ensures ReadN(ENV, t, DEV_LO, 1, []) == Got(t.(stall := true), Bytes([0xFF]))
  {
    assert At(DEV_LO, 0) == DEV_LO && Walk(t.cpu, t.ram, true, DEV_LO, false) == Frame(DEV_LO);
    hide Walk;
    var r := t.(stall := true);
    assert ReadByte(ENV, t, DEV_LO) == (r, 0xFF);
    assert ReadN(ENV, r, DEV_LO, 1, [0xFF]) == Got(r, Bytes([0xFF])) && [] + [0xFF] == [0xFF];
  }

  lemma NothingProbed(u: Sim)
    requires Good(ENV, u) && u.cpu.abrt == 0
    ensures Probe(ENV, FillAndWait(), u) == u
  {
    hide Walk;
    assert TranslateAll(ENV, u.cpu, u.ram, 0, 0, true, []) == Pages([]);
  }

  lemma WaitsForByte(i: Instr, t: Sim)
    requires i == FillAndWait() && Good(ENV, t) && t.cpu.core == 1 && t.cpu.abrt == 0 && t.cpu.cr0 == 0
    requires t.devCur == 0 && !t.failed
    ensures var u := Probe(ENV, i, Exec(ENV, i.body, t, 1));
            u.ram == t.ram && u.log == t.log && u.stall && !u.failed && u.devLast == t.devLast
  {
    hide ReadN, TranslateAll, Walk, Probe, Good;
    ReadWaits(t);
    var u := Perform(ENV, i.body, t, Read(DEV_LO, 1));
    assert i.body.act(t.cpu) == Read(DEV_LO, 1);
    assert u == t.(stall := true, cpu := t.cpu.(core := 2));
    assert Exec(ENV, i.body, t, 1) == u;
    NothingProbed(u);
  }

  /** The stalled step gives the first 4096 bytes back, and keeps the last. */
  lemma LastChangeKept()
    ensures var v := Run(ENV, FillAndWait(), Start());
            && v.Stalled? && !v.r.err
            && v.r.ram == Filled(0)[4096 := 1] != Start().ram
  {
    hide Attempt;
    FillAttempt();
    var s, zeros := Attempt(ENV, FillAndWait(), Start()), Filled(0);
    forall a: nat | a < SIZE
      ensures Undo(s.ram, s.log)[a] == if a == 4096 then 1 else 0
    {
      UndoAt(zeros, s.ram, s.log, a);
      if a < MAX_LOG {
        assert s.log[a].addr == a;
      }
    }
    assert Undo(s.ram, s.log) == zeros[4096 := 1];
    assert zeros[4096] == 0 && zeros[4096 := 1][4096] == 1;
  }
}
