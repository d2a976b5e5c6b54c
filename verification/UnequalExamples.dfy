/** The shortest runs that report nothing and end with unequal memories. */
module UnequalExamples {
  import opened Platform
  import opened EventQueue
  import opened WriteMatcher
  import opened Outstanding
  import opened MatcherSoundness
  import opened CosimRun
  import opened RunSoundness
  import opened RunTheorems
  import opened OmittedWrites
  import opened OmittedExamples

  lemma Emptied(x: Ev)
    ensures Advance([x.(done := true)] + []) == [] && [x][0 := x.(done := true)] == [x.(done := true)]
  {
    assert [x.(done := true)] + [] == [x.(done := true)];
    assert [x.(done := true)][1..] == [];
  }

  const POKED: seq<Event> := [Insn([Write(0, 1)]), Dma(0, 2), DutWrite(0, 1)]

  /** The reference stores 1; DMA stores 2; z486 stores the 1. */
  lemma PokedRun()
    ensures var c, o := Config(1, false), Observed([0], [], [], [], []);
            && Run(c, Fresh(1), POKED).Running? && Drained(Run(c, Fresh(1), POKED).s)
            && Run(c, Fresh(1), POKED).s.m.ram == [2] && ObserveAll(c, true, o, POKED).z == [1]
  {
    PokedMachine();
    PokedMemory();
  }

  lemma PokedMachine()
    ensures Run(Config(1, false), Fresh(1), POKED) == Running(With(Fresh(1), [], [2], 1))
  {
    hide Next, StoreAll, InRam, MatchWrite;
    var c, x := Config(1, false), Ev(0, 1, false, false, false, 1);
    var s1, s2 := With(Fresh(1), [x], [1], 1), With(Fresh(1), [x], [2], 1);
    StepOne(c, Fresh(1), Write(0, 1));
    assert [] + [x] == [x] == [x] + [] && Fresh(1).m.ram[0 := 1] == [1];
    PokeOne(c, s1, 2);
    assert s1.m.ram[0 := 2] == [2];
    DutOne(c, s2, 0, 1);
    Listed(c, s2.m, Write(0, 1), [x], [], 0);
    Emptied(x);
    assert POKED[1..] == [Dma(0, 2), DutWrite(0, 1)] && POKED[1..][1..] == [DutWrite(0, 1)];
    RunOne(c, Fresh(1), POKED);
    RunOne(c, s1, POKED[1..]);
    RunOne(c, s2, [DutWrite(0, 1)]);
  }

  lemma PokeOne(c: Config, s: Machine, val: Byte)
    requires Small(c, s)
    ensures Next(c, s, Dma(0, val)) == Running(s.(m := s.m.(ram := s.m.ram[0 := val])))
  {
  }

  /** z486's memory after one of its writes, and after one by DMA. */
  lemma Memory(c: Config, o: Observed, e: Event, rest: seq<Event>)
    requires c.ramBytes == |o.z| == 1 && (e.Dma? || e.DutWrite? ==> e.phys == 0) && !e.SetA20?
    requires !e.Walker?
    ensures var evs := [e] + rest;
            ObserveAll(c, true, o, evs) == ObserveAll(c, true, Observe(c, true, o, e), rest)
    ensures Observe(c, true, o, e).z == if e.Dma? || e.DutWrite? then [e.val] else o.z
  {
    var evs := [e] + rest;
    assert evs[0] == e && evs[1..] == rest;
  }

  lemma PokedMemory()
    ensures ObserveAll(Config(1, false), true, Observed([0], [], [], [], []), POKED).z == [1]
  {
    hide Observe, ObserveAll;
    var c, e := Config(1, false), POKED;
    var o := Observed([0], [], [], [], []);
    var o1 := Observe(c, true, o, e[0]);
    var o2 := Observe(c, true, o1, e[1]);
    assert e == [e[0]] + e[1..] && e[1..] == [e[1]] + e[2..] && e[2..] == [e[2]] + [];
    Memory(c, o, e[0], e[1..]);
    Memory(c, o1, e[1], e[2..]);
    Memory(c, o2, e[2], []);
    NothingObserved(c, Observe(c, true, o2, e[2]));
  }

  lemma NothingObserved(c: Config, o: Observed)
    requires c.ramBytes <= |o.z|
    ensures ObserveAll(c, true, o, []) == o
  {
  }

  const ADOPTED: seq<Event> :=
    [Step([Write(0, 1)], [], true), Step([Write(0, 2)], [], false), DutWrite(0, 3), DutWrite(0, 2)]

  /** An x87 store of 1, then a store of 2. z486 stores 3 and 2: the 3 is
      adopted after the reference has stored the 2. */
  lemma AdoptedRun()
    ensures var c, o := Config(1, true), Observed([0], [], [], [], []);
            && Run(c, Fresh(1), ADOPTED).Running? && Drained(Run(c, Fresh(1), ADOPTED).s)
            && Run(c, Fresh(1), ADOPTED).s.m.ram == [3] && ObserveAll(c, true, o, ADOPTED).z == [2]
  {
    AdoptedMachine();
    AdoptedMemory();
  }

  lemma FloatStep()
    ensures var c, x := Config(1, true), Ev(0, 1, false, false, true, 1);
            Next(c, Fresh(1), ADOPTED[0]) == Running(With(Fresh(1), [x], [1], 1))
  {
    hide StoreByte;
    var c, x, w := Config(1, true), Ev(0, 1, false, false, true, 0), Write(0, 1);
    var s0 := Stored([0], []);
    assert StoreByte(c, s0, 0, 1, true) == Stored([1], [x]) by { FloatStore(); }
    assert Fresh(1).m.ram == [0] && [w][1..] == [];
    assert StoreAll(c, s0, [w], true) == Stored([1], [x]);
    assert Tagged([x], 1) == [x.(grp := 1)] && [] + [x.(grp := 1)] == [x.(grp := 1)];
    assert MatchAll(c, Match([x.(grp := 1)], [], [1]), []) == Reply(Match([x.(grp := 1)], [], [1]), true);
  }

  lemma FloatStore()
    ensures StoreByte(Config(1, true), Stored([0], []), 0, 1, true)
         == Stored([1], [Ev(0, 1, false, false, true, 0)])
  {
    LowAddress(Config(1, true), [0], 0);
    assert [0][0 := 1] == [1];
  }

  lemma AdoptedMachine()
    ensures Run(Config(1, true), Fresh(1), ADOPTED) == Running(With(Fresh(1), [], [3], 2))
  {
    hide Next, StoreAll, InRam, MatchWrite, Advance;
    var c, x, y := Config(1, true), Ev(0, 1, false, false, true, 1), Ev(0, 2, false, false, false, 2);
    var s1, s2 := With(Fresh(1), [x], [1], 1), With(Fresh(1), [x] + [y], [2], 2);
    var s3 := With(Fresh(1), [y], [3], 2);
    FloatStep();
    StepOne(c, s1, Write(0, 2));
    assert s1.m.ram[0 := 2] == [2] && s2.m.ram[0 := 3] == [3];
    DutOne(c, s2, 0, 3);
    AdoptFirst();
    DutOne(c, s3, 0, 2);
    assert [y] == [y] + [];
    Listed(c, s3.m, Write(0, 2), [y], [], 0);
    Emptied(y);
    var e := ADOPTED;
    assert e[1..][1..] == e[2..] && e[2..] == [DutWrite(0, 3), DutWrite(0, 2)] && e[2..][1..] == [DutWrite(0, 2)];
    RunOne(c, Fresh(1), e);
    RunOne(c, s1, e[1..]);
    RunOne(c, s2, e[2..]);
    RunOne(c, s3, [DutWrite(0, 2)]);
  }

  lemma AdoptFirst()
    ensures var x, y := Ev(0, 1, false, false, true, 1), Ev(0, 2, false, false, false, 2);
            MatchWrite(Config(1, true), Match([x] + [y], [], [2]), Write(0, 3)) == Reply(Match([y], [], [3]), true)
  {
    var c, x, y := Config(1, true), Ev(0, 1, false, false, true, 1), Ev(0, 2, false, false, false, 2);
    Oldest([x], [y]);
    FirstIs([x], 0, 0);
    LowAddress(c, [2], 0);
    Found(c, Match([x] + [y], [], [2]), Write(0, 3), [x] + [y], 1, 0);
    var marked := ([x] + [y])[0 := x.(done := true)];
    assert marked[1..] == [y] && [2][0 := 3] == [3];
    assert Advance(marked) == Advance([y]) == [y];
  }

  lemma AdoptedMemory()
    ensures ObserveAll(Config(1, true), true, Observed([0], [], [], [], []), ADOPTED).z == [2]
  {
    hide Observe, ObserveAll;
    var c, e, o := Config(1, true), ADOPTED, Observed([0], [], [], [], []);
    var o1 := Observe(c, true, o, e[0]);
    var o2 := Observe(c, true, o1, e[1]);
    var o3 := Observe(c, true, o2, e[2]);
    assert e == [e[0]] + e[1..] && e[1..] == [e[1]] + e[2..] && e[2..] == [e[2]] + e[3..] && e[3..] == [e[3]] + [];
    Memory(c, o, e[0], e[1..]);
    Memory(c, o1, e[1], e[2..]);
    Memory(c, o2, e[2], e[3..]);
    Memory(c, o3, e[3], []);
    NothingObserved(c, Observe(c, true, o3, e[3]));
  }

  // ---- A careless adoption mended in the same step ----

  const MENDED: seq<Event> := [DutWrite(0, 3), DutWrite(0, 5), Step([Write(0, 1), Write(0, 2)], [], true)]

  /** z486 is ahead: its 3 and its 5 wait. The step's two x87 stores of the
      byte are adopted in turn, the 3 under the other value that is to follow,
      the 5 as the last: careless, and equal all the same. */
  lemma MendedRun()
    ensures var c, o := Config(1, true), Observed([0], [], [], [], []);
            && Run(c, Fresh(1), MENDED).Running? && Drained(Run(c, Fresh(1), MENDED).s)
            && Run(c, Fresh(1), MENDED).s.m.ram == [5] == ObserveAll(c, true, o, MENDED).z
            && !CarefulRun(c, Fresh(1), MENDED, 0)
  {
    MendedMachine();
    MendedMemory();
  }

  const FIRST: Ev := Ev(0, 1, false, false, true, 1)
  const SECOND: Ev := Ev(0, 2, false, false, true, 1)

  function Queued(ds: seq<Ev>): Machine {
    Machine(Match([], ds, [0]), [], [], true, 0)
  }

  lemma BothStores()
    ensures var s := Queued([DutEvent(Write(0, 3)), DutEvent(Write(0, 5))]);
            Joined(Config(1, true), s, [Write(0, 1), Write(0, 2)], true) == Match([FIRST, SECOND], [], [2])
  {
    hide StoreByte;
    var c, ws, s0 := Config(1, true), [Write(0, 1), Write(0, 2)], Stored([0], []);
    var s1 := Stored([1], [FIRST.(grp := 0)]);
    var s2 := Stored([2], [FIRST.(grp := 0), SECOND.(grp := 0)]);
    FloatStore();
    NextFloatStore();
    assert ws[1..] == [Write(0, 2)] && ws[1..][1..] == [];
    assert StoreAll(c, s1, ws[1..], true) == s2;
    assert StoreAll(c, s0, ws, true) == s2;
    assert Tagged(s2.stage, 1) == [FIRST, SECOND] && [] + [FIRST, SECOND] == [FIRST, SECOND];
  }

  lemma NextFloatStore()
    ensures StoreByte(Config(1, true), Stored([1], [FIRST.(grp := 0)]), 0, 2, true)
         == Stored([2], [FIRST.(grp := 0), SECOND.(grp := 0)])
  {
    LowAddress(Config(1, true), [1], 0);
    assert [1][0 := 2] == [2];
  }

  lemma MendedReplay()
    ensures var c, ds := Config(1, true), [DutEvent(Write(0, 3)), DutEvent(Write(0, 5))];
            && MatchAll(c, Match([FIRST, SECOND], [], [2]), ds) == Reply(Match([], [], [5]), true)
            && !CarefulAll(c, Match([FIRST, SECOND], [], [2]), ds, 0)
  {
    hide MatchWrite, Careful;
    var c, ds := Config(1, true), [DutEvent(Write(0, 3)), DutEvent(Write(0, 5))];
    var m := Match([FIRST, SECOND], [], [2]);
    FirstAdopted();
    SecondAdopted();
    assert ds[1..] == [DutEvent(Write(0, 5))] && ds[1..][1..] == [];
    assert MatchAll(c, Match([SECOND], [], [3]), ds[1..]) == Reply(Match([], [], [5]), true);
  }

  lemma FirstAdopted()
    ensures var c, m := Config(1, true), Match([FIRST, SECOND], [], [2]);
            MatchWrite(c, m, Write(0, 3)) == Reply(Match([SECOND], [], [3]), true) && !Careful(c, m, Write(0, 3))
  {
    hide Undone, FirstPending, Advance, GroupLen;
    var c, q := Config(1, true), [FIRST, SECOND];
    var m := Match(q, [], [2]);
    Oldest(q, []);
    assert q + [] == q && q[..2] == q;
    LowAddress(c, [2], 0);
    FirstIs(q, 0, 0);
    Found(c, m, Write(0, 3), q, 2, 0);
    FirstMarked();
    BothUndone();
    assert [2][0 := 3] == [3];
  }

  lemma FirstMarked()
    ensures Advance([FIRST, SECOND][0 := FIRST.(done := true)]) == [SECOND]
  {
    var marked := [FIRST, SECOND][0 := FIRST.(done := true)];
    assert marked[0].done && marked[1..] == [SECOND] && !SECOND.done;
    assert Advance([SECOND]) == [SECOND];
  }

  lemma BothUndone()
    ensures Undone([FIRST, SECOND], 0) == [FIRST, SECOND]
  {
    UndoneConcat([FIRST], [SECOND], 0);
    assert [FIRST] + [SECOND] == [FIRST, SECOND];
    assert [FIRST][1..] == [] && [SECOND][1..] == [];
    assert Undone([FIRST], 0) == [FIRST] && Undone([SECOND], 0) == [SECOND];
  }

  lemma SecondAdopted()
    ensures MatchWrite(Config(1, true), Match([SECOND], [], [3]), Write(0, 5)) == Reply(Match([], [], [5]), true)
  {
    var c, q := Config(1, true), [SECOND];
    Oldest(q, []);
    assert q + [] == q && q[..1] == q;
    LowAddress(c, [3], 0);
    Found(c, Match(q, [], [3]), Write(0, 5), q, 1, 0);
    Emptied(SECOND);
    assert [SECOND.(done := true)] + [] == [SECOND.(done := true)] && [3][0 := 5] == [5];
  }

  lemma MendedMachine()
    ensures var c := Config(1, true);
            Run(c, Fresh(1), MENDED) == Running(Machine(Match([], [], [5]), [], [], true, 1))
            && !CarefulRun(c, Fresh(1), MENDED, 0)
  {
    hide Next, Joined, MatchAll, CarefulAll, Careful;
    var c, e := Config(1, true), MENDED;
    var d, ds := DutEvent(Write(0, 3)), [DutEvent(Write(0, 3)), DutEvent(Write(0, 5))];
    var s1, s2 := Queued([d]), Queued(ds);
    assert Fresh(1).m.ram == [0] && Fresh(1) == Queued([]);
    WaitsOne([], 3);
    WaitsOne([d], 5);
    assert [] + [d] == [d] && [d] + [DutEvent(Write(0, 5))] == ds;
    MendedStep(ds);
    assert e[1..][1..] == e[2..] == [e[2]] && e[2..][1..] == [];
    RunOne(c, Fresh(1), e);
    RunOne(c, s1, e[1..]);
    RunOne(c, s2, e[2..]);
    assert !CarefulRun(c, s2, e[2..], 0);
    assert !CarefulRun(c, s1, e[1..], 0);
  }

  lemma WaitsOne(ds: seq<Ev>, val: Byte)
    ensures Next(Config(1, true), Queued(ds), DutWrite(0, val)) == Running(Queued(ds + [DutEvent(Write(0, val))]))
  {
  }

  lemma MendedStep(ds: seq<Ev>)
    requires ds == [DutEvent(Write(0, 3)), DutEvent(Write(0, 5))]
    ensures var c, e := Config(1, true), MENDED[2];
            && Next(c, Queued(ds), e) == Running(Machine(Match([], [], [5]), [], [], true, 1))
            && !CarefulEvent(c, Queued(ds), e, 0)
  {
    hide StoreAll, Tagged, MatchAll, CarefulAll;
    BothStores();
    MendedReplay();
  }

  lemma MendedMemory()
    ensures ObserveAll(Config(1, true), true, Observed([0], [], [], [], []), MENDED).z == [5]
  {
    hide Observe, ObserveAll;
    var c, e, o := Config(1, true), MENDED, Observed([0], [], [], [], []);
    var o1 := Observe(c, true, o, e[0]);
    var o2 := Observe(c, true, o1, e[1]);
    assert e == [e[0]] + e[1..] && e[1..] == [e[1]] + e[2..] && e[2..] == [e[2]] + [];
    Memory(c, o, e[0], e[1..]);
    Memory(c, o1, e[1], e[2..]);
    Memory(c, o2, e[2], []);
    NothingObserved(c, Observe(c, true, o2, e[2]));
  }
}
