/** Runs of a z486 that leaves out, or adds, a write that changes nothing. */
module OmittedExamples {
  import opened Platform
  import opened EventQueue
  import opened WriteMatcher
  import opened Outstanding
  import opened MatcherSoundness
  import opened CosimRun
  import opened RunSoundness
  import opened MatcherCompleteness
  import opened OmittedWrites
  import opened OmittedRuns
  import opened OmittedTheorems

  // ---- Small machines ----

  /** A machine with n bytes of zeros, at the reset. */
  function Fresh(n: nat): Machine {
    Machine(Match([], [], seq(n, _ => 0)), [], [], true, 0)
  }

  function Insn(ws: seq<Write>): Event {
    Step(ws, [], false)
  }

  /** The queue entry of the reference's write w by instruction grp. */
  function Entry(ram: seq<Byte>, w: Write, grp: nat): Ev
    requires 0 <= w.addr < |ram|
  {
    Ev(w.addr, w.val, false, ram[w.addr] == w.val, false, grp)
  }

  ghost predicate Small(c: Config, s: Machine) {
    && 0 < c.ramBytes == |s.m.ram| < 0x100 && s.a20
    && s.m.dut == [] && s.expIo == [] && s.dutIo == []
  }

  function With(s: Machine, exp: seq<Ev>, ram: seq<Byte>, ninsn: nat): Machine {
    s.(m := Match(exp, [], ram), ninsn := ninsn)
  }

  /** An instruction's stores, with z486 not ahead. */
  lemma StepStores(c: Config, s: Machine, ws: seq<Write>)
    requires Small(c, s)
    ensures var st := StoreAll(c, Stored(s.m.ram, []), ws, false);
            && Next(c, s, Insn(ws)) == Running(With(s, s.m.exp + Tagged(st.stage, s.ninsn + 1), st.ram, s.ninsn + 1))
            && |st.ram| == |s.m.ram|
  {
    hide StoreAll, Tagged;
  }

  lemma StepOne(c: Config, s: Machine, w: Write)
    requires Small(c, s) && 0 <= w.addr < c.ramBytes
    ensures Next(c, s, Insn([w]))
         == Running(With(s, s.m.exp + [Entry(s.m.ram, w, s.ninsn + 1)], s.m.ram[w.addr := w.val], s.ninsn + 1))
  {
    hide StoreAll, Tagged;
    StepStores(c, s, [w]);
    StoreOne(c, s.m.ram, w, s.ninsn + 1);
  }

  lemma StoreOne(c: Config, ram: seq<Byte>, w: Write, grp: nat)
    requires 0 < c.ramBytes == |ram| < 0x100 && 0 <= w.addr < c.ramBytes
    ensures var st := StoreAll(c, Stored(ram, []), [w], false);
            st.ram == ram[w.addr := w.val] && Tagged(st.stage, grp) == [Entry(ram, w, grp)]
  {
    hide StoreByte;
    assert [w][1..] == [];
    var e := Entry(ram, w, 0);
    StoreFirst(c, Stored(ram, []), w);
    assert [] + [e] == [e];
    assert Tagged([e], grp) == [e.(grp := grp)];
  }

  lemma StoreFirst(c: Config, s: Stored, w: Write)
    requires 0 < c.ramBytes == |s.ram| < 0x100 && 0 <= w.addr < c.ramBytes
    ensures StoreByte(c, s, w.addr, w.val, false)
         == Stored(s.ram[w.addr := w.val], s.stage + [Entry(s.ram, w, 0)])
  {
    LowAddress(c, s.ram, w.addr);
  }

  lemma LowAddress(c: Config, ram: seq<Byte>, a: int)
    requires 0 < c.ramBytes == |ram| < 0x100 && 0 <= a < c.ramBytes
    ensures InRam(c, a) && Index(ram, a) == a
  {
    hide Index;
    IndexInRam(ram, a);
  }

  /** A write of z486's below A0000. */
  lemma DutOne(c: Config, s: Machine, addr: int, val: Byte)
    requires Small(c, s) && 0 <= addr < c.ramBytes
    ensures var r := MatchWrite(c, s.m, Write(addr, val));
            Next(c, s, DutWrite(addr, val)) == if r.ok then Running(s.(m := r.m)) else Diverged
  {
  }

  lemma RunOne(c: Config, s: Machine, evs: seq<Event>)
    requires Fits(c, s) && evs != []
    ensures var r := Next(c, s, evs[0]);
            Run(c, s, evs) == if r.Running? then Run(c, r.s, evs[1..]) else Diverged
  {
  }

  /** What both sides do in the events evs, from RAM ram and instruction n
      on: the reference stages `staged`, z486 writes ds. */
  ghost predicate Does(c: Config, ram: seq<Byte>, n: nat, evs: seq<Event>, staged: seq<Ev>, ds: seq<Write>) {
    && 0 < c.ramBytes == |ram| < 0x100
    && StagedBy(c, ram, true, n, evs) == staged && DutsOf(true, evs) == ds
    && DutOutsOf(evs) == [] && OutsOf(evs) == []
  }

  lemma StepDoes(c: Config, ram: seq<Byte>, n: nat, ws: seq<Write>, rest: seq<Event>, staged: seq<Ev>, ds: seq<Write>)
    requires 0 < c.ramBytes == |ram| < 0x100
    requires Does(c, StoreAll(c, Stored(ram, []), ws, false).ram, n + 1, rest, staged, ds)
    ensures Does(c, ram, n, [Insn(ws)] + rest,
                 Tagged(StoreAll(c, Stored(ram, []), ws, false).stage, n + 1) + staged, ds)
  {
    hide StoreAll, Tagged;
    var evs := [Insn(ws)] + rest;
    assert evs[0] == Insn(ws) && evs[1..] == rest;
    Unroll(true, evs);
  }

  lemma DutDoes(c: Config, ram: seq<Byte>, n: nat, w: Write, rest: seq<Event>, staged: seq<Ev>, ds: seq<Write>)
    requires 0 <= w.addr < c.ramBytes && Does(c, ram, n, rest, staged, ds)
    ensures Does(c, ram, n, [DutWrite(w.addr, w.val)] + rest, staged, [w] + ds)
  {
    hide StoreAll, Tagged;
    var evs := [DutWrite(w.addr, w.val)] + rest;
    assert evs[0] == DutWrite(w.addr, w.val) && evs[1..] == rest;
    Unroll(true, evs);
  }

  lemma NothingDone(c: Config, ram: seq<Byte>, n: nat)
    requires 0 < c.ramBytes == |ram| < 0x100
    ensures Does(c, ram, n, [], [], [])
  {
  }

  /** z486's writes ds, one after the other. */
  lemma PerformingFrom(c: Config, evs: seq<Event>, staged: seq<Ev>, ls: seq<Ev>)
    requires Does(c, Fresh(c.ramBytes).m.ram, 0, evs, staged, Writes(ls)) && !c.lenient && InOrder(ls)
    requires forall g, a :: Todo(ls, g, a) == Todo(staged, g, a)
    ensures Performing(c, Fresh(c.ramBytes), evs, ls)
  {
    hide StagedBy, Todo;
  }

  lemma TodoCons(e: Ev, q: seq<Ev>, g: nat, a: int)
    ensures Todo([e] + q, g, a) == Todo([e], g, a) + Todo(q, g, a)
    ensures e.silent ==> Todo([e] + q, g, a) == Todo(q, g, a)
  {
    TodoConcat([e], q, g, a);
    TodoOne(e);
  }

  /** The oldest instruction's entries p before the others' entries q. */
  lemma Oldest(p: seq<Ev>, q: seq<Ev>)
    requires p != [] && !p[0].done && forall e :: e in p ==> e.grp == p[0].grp
    requires forall e :: e in q ==> e.grp != p[0].grp
    ensures Advance(p + q) == p + q && GroupLen(p + q, (p + q)[0].grp) == |p|
    ensures (p + q)[..|p|] == p && (p + q)[|p|..] == q
  {
    GroupLenConcat(p, q, p[0].grp);
  }

  /** A write to a byte that the oldest instruction does not list. */
  lemma Unlisted(c: Config, m: Match, w: Write, p: seq<Ev>, q: seq<Ev>)
    requires c.ramBytes <= |m.ram| && m.exp == p + q
    requires p != [] && !p[0].done && forall e :: e in p ==> e.grp == p[0].grp
    requires forall e :: e in q ==> e.grp != p[0].grp
    requires forall e :: e in p ==> e.done || e.addr != w.addr
    ensures MatchWrite(c, m, w)
         == if Holds(c, m, w) then Reply(m, true)
            else if OnlySilent(p) then MatchWrite(c, m.(exp := q), w) else Reply(m, false)
  {
    Oldest(p, q);
    FirstIs(p, w.addr, |p|);
    if Holds(c, m, w) {
      Rewritten(c, m, w, p + q, |p|);
    } else {
      NotFound(c, m, w, p + q, |p|);
      if OnlySilent(p) {
        SkipDone(c, m.(exp := q), m.(exp := Advance(q)), w);
      }
    }
  }

  /** A write to a byte whose first unmatched entry is the oldest
      instruction's number i. */
  lemma Listed(c: Config, m: Match, w: Write, p: seq<Ev>, q: seq<Ev>, i: nat)
    requires c.ramBytes <= |m.ram| && m.exp == p + q
    requires p != [] && !p[0].done && forall e :: e in p ==> e.grp == p[0].grp
    requires forall e :: e in q ==> e.grp != p[0].grp
    requires i < |p| && !p[i].done && p[i].addr == w.addr && (c.lenient ==> p[i].val == w.val)
    requires forall k :: 0 <= k < i ==> p[k].done || p[k].addr != w.addr
    ensures MatchWrite(c, m, w)
         == if p[i].val == w.val then Reply(m.(exp := Advance(p[i := p[i].(done := true)] + q)), true)
            else Reply(m, false)
  {
    Oldest(p, q);
    FirstIs(p, w.addr, i);
    Found(c, m, w, p + q, |p|, i);
    assert (p + q)[i := p[i].(done := true)] == p[i := p[i].(done := true)] + q;
  }

  lemma StepOneDoes(c: Config, ram: seq<Byte>, n: nat, w: Write, rest: seq<Event>, staged: seq<Ev>, ds: seq<Write>)
    requires |ram| == c.ramBytes && 0 <= w.addr < c.ramBytes
    requires Does(c, ram[w.addr := w.val], n + 1, rest, staged, ds)
    ensures Does(c, ram, n, [Insn([w])] + rest, [Entry(ram, w, n + 1)] + staged, ds)
  {
    hide StoreAll, Tagged, StagedBy;
    StoreOne(c, ram, w, n + 1);
    StepDoes(c, ram, n, [w], rest, staged, ds);
  }

  // ---- The reference rewrites byte 0 with its value 0, and makes w next ----

  const REWRITE: Ev := Ev(0, 0, false, true, false, 1)

  function Second(w: Write): Ev {
    Ev(w.addr, w.val, false, false, false, 2)
  }

  function FirstTwo(w: Write): seq<Event> {
    [Insn([Write(0, 0)]), Insn([w])]
  }

  ghost predicate Usable(c: Config, w: Write) {
    0 < c.ramBytes < 0x100 && !c.lenient && 0 <= w.addr < c.ramBytes && w.val != 0
  }

  function AfterTwo(c: Config, w: Write): Machine
    requires Usable(c, w)
  {
    With(Fresh(c.ramBytes), [REWRITE, Second(w)], Fresh(c.ramBytes).m.ram[w.addr := w.val], 2)
  }

  lemma FirstSteps(c: Config, w: Write, rest: seq<Event>)
    requires Usable(c, w)
    ensures Small(c, AfterTwo(c, w)) && Run(c, Fresh(c.ramBytes), FirstTwo(w) + rest) == Run(c, AfterTwo(c, w), rest)
  {
    hide Next, StoreAll;
    var s := Fresh(c.ramBytes);
    var e1, e2 := Insn([Write(0, 0)]), Insn([w]);
    StepOne(c, s, Write(0, 0));
    assert s.m.ram[0 := 0] == s.m.ram && [] + [REWRITE] == [REWRITE];
    var s1 := With(s, [REWRITE], s.m.ram, 1);
    StepOne(c, s1, w);
    assert [REWRITE] + [Second(w)] == [REWRITE, Second(w)];
    assert ([e1, e2] + rest)[1..] == [e2] + rest && ([e2] + rest)[1..] == rest;
    RunOne(c, s, [e1, e2] + rest);
    RunOne(c, s1, [e2] + rest);
  }

  lemma FirstDo(c: Config, w: Write, rest: seq<Event>, staged: seq<Ev>, ds: seq<Write>)
    requires Usable(c, w) && Does(c, AfterTwo(c, w).m.ram, 2, rest, staged, ds)
    ensures Does(c, Fresh(c.ramBytes).m.ram, 0, FirstTwo(w) + rest, [REWRITE] + ([Second(w)] + staged), ds)
  {
    hide Does;
    var z := Fresh(c.ramBytes).m.ram;
    StepOneDoes(c, z, 1, w, rest, staged, ds);
    assert z[0 := 0] == z;
    StepOneDoes(c, z, 0, Write(0, 0), [Insn([w])] + rest, [Second(w)] + staged, ds);
    assert FirstTwo(w) + rest == [Insn([Write(0, 0)])] + ([Insn([w])] + rest);
  }

  // ---- Three runs that are reported although z486 does all it has to ----

  /** z486 leaves out the rewriting of byte 0, and the next write of that byte
      is compared with it. */
  lemma OmittedSilentWriteReported()
    ensures var c, evs := Config(1, false), FirstTwo(Write(0, 5)) + [DutWrite(0, 5)];
            Performing(c, Fresh(1), evs, [Second(Write(0, 5))]) && Run(c, Fresh(1), evs) == Diverged
  {
    hide Next, Does, Performing, Todo, StoreAll;
    var c, w, d := Config(1, false), Write(0, 5), DutWrite(0, 5);
    var x, s2 := Second(w), AfterTwo(c, w);
    FirstSteps(c, w, [d]);
    RunOne(c, s2, [d]);
    DutOne(c, s2, 0, 5);
    assert s2.m.exp == [REWRITE] + [x];
    Listed(c, s2.m, w, [REWRITE], [x], 0);

    NothingDone(c, s2.m.ram, 2);
    DutDoes(c, s2.m.ram, 2, w, [], [], []);
    assert [d] + [] == [d] && [w] + [] == [w] == Writes([x]) && [x] + [] == [x];
    FirstDo(c, w, [d], [], [w]);
    forall g, a
      ensures Todo([x], g, a) == Todo([REWRITE] + [x], g, a)
    {
      TodoCons(REWRITE, [x], g, a);
    }
    PerformingFrom(c, FirstTwo(w) + [d], [REWRITE] + [x], [x]);
  }

  const SWALLOWED: seq<Event> := [DutWrite(1, 5), DutWrite(2, 7), Insn([Write(2, 7)])]

  /** z486 leaves it out, and the next write, of another byte, is taken for a
      repetition, because the reference has made it already. The one after
      that is compared with the entry it left behind. */
  lemma SwallowedWriteReported()
    ensures var c, evs := Config(3, false), FirstTwo(Write(1, 5)) + SWALLOWED;
            && Performing(c, Fresh(3), evs, [Second(Write(1, 5)), Second(Write(2, 7)).(grp := 3)])
            && Run(c, Fresh(3), evs) == Diverged
    ensures var c, s2 := Config(3, false), AfterTwo(Config(3, false), Write(1, 5));
            Run(c, s2, [DutWrite(1, 5)]) == Running(s2)
  {
    hide Next, Does, Performing, Todo, StoreAll, AfterTwo, Run;
    SwallowedRun();
    SwallowedPerforms();
  }

  lemma SwallowedRun()
    ensures var c, w := Config(3, false), Write(1, 5);
            && Run(c, Fresh(3), FirstTwo(w) + SWALLOWED) == Diverged
            && Run(c, AfterTwo(c, w), [DutWrite(1, 5)]) == Running(AfterTwo(c, w))
  {
    hide Next, StoreAll, InRam, StagedBy;
    var c, w, v := Config(3, false), Write(1, 5), Write(2, 7);
    var x, s2, rest := Second(w), AfterTwo(c, w), [DutWrite(2, 7), Insn([v])];
    FirstSteps(c, w, SWALLOWED);
    RunOne(c, s2, SWALLOWED);
    RunOne(c, s2, [DutWrite(1, 5)]);
    DutOne(c, s2, 1, 5);
    LowAddress(c, s2.m.ram, 1);
    LowAddress(c, s2.m.ram, 2);
    assert s2.m.exp == [REWRITE] + [x] && SWALLOWED[1..] == rest;
    Unlisted(c, s2.m, w, [REWRITE], [x]);
    assert s2.(m := s2.m) == s2;
    RunOne(c, s2, rest);
    DutOne(c, s2, 2, 7);
    Unlisted(c, s2.m, v, [REWRITE], [x]);
    assert [x] + [] == [x];
    Unlisted(c, s2.m.(exp := [x]), v, [x], []);
  }

  lemma SwallowedPerforms()
    ensures var c, w := Config(3, false), Write(1, 5);
            Performing(c, Fresh(3), FirstTwo(w) + SWALLOWED, [Second(w), Second(Write(2, 7)).(grp := 3)])
  {
    hide Does, Performing, Todo, StoreAll;
    var c, w, v, e := Config(3, false), Write(1, 5), Write(2, 7), Insn([Write(2, 7)]);
    var x, y, z := Second(w), Second(v).(grp := 3), AfterTwo(c, w).m.ram;
    NothingDone(c, z[2 := 7], 3);
    StepOneDoes(c, z, 2, v, [], [], []);
    DutDoes(c, z, 2, v, [e] + [], [y] + [], []);
    DutDoes(c, z, 2, w, [DutWrite(2, 7)] + ([e] + []), [y] + [], [v] + []);
    assert [DutWrite(1, 5)] + ([DutWrite(2, 7)] + ([e] + [])) == SWALLOWED;
    assert [w] + ([v] + []) == Writes([x, y]) && [x] + ([y] + []) == [x, y];
    FirstDo(c, w, SWALLOWED, [y] + [], Writes([x, y]));
    forall g, a
      ensures Todo([x, y], g, a) == Todo([REWRITE] + [x, y], g, a)
    {
      TodoCons(REWRITE, [x, y], g, a);
    }
    PerformingFrom(c, FirstTwo(w) + SWALLOWED, [REWRITE] + [x, y], [x, y]);
  }

  const ADDED: seq<Event> := [DutWrite(0, 0), DutWrite(1, 9), DutWrite(0, 5)]

  /** z486 rewrites byte 0 with its value, as the reference does not: it is
      reported, because the reference has stored another value there by
      then, and has a changing write outstanding before that. */
  lemma AddedRewriteReported()
    ensures var c, evs := Config(2, false), [Insn([Write(1, 9)])] + ([Insn([Write(0, 5)])] + ADDED);
            var ls := [REWRITE, Second(Write(1, 9)).(grp := 1), Second(Write(0, 5))];
            Performing(c, Fresh(2), evs, ls) && Run(c, Fresh(2), evs) == Diverged
  {
    hide Next, Does, Performing, Todo, StoreAll, Run;
    AddedRun();
    AddedPerforms();
  }

  lemma AddedRun()
    ensures Run(Config(2, false), Fresh(2), [Insn([Write(1, 9)])] + ([Insn([Write(0, 5)])] + ADDED)) == Diverged
  {
    hide Next, StoreAll, InRam, StagedBy;
    var c, w, v := Config(2, false), Write(1, 9), Write(0, 5);
    var x, y, s, z := Second(w).(grp := 1), Second(v), Fresh(2), Fresh(2).m.ram;
    StepOne(c, s, w);
    var s1 := With(s, [] + [x], z[1 := 9], 1);
    StepOne(c, s1, v);
    var s2 := With(s1, [] + [x] + [y], z[1 := 9][0 := 5], 2);
    var rest := [Insn([v])] + ADDED;
    RunOne(c, s, [Insn([w])] + rest);
    assert ([Insn([w])] + rest)[1..] == rest && rest[1..] == ADDED;
    RunOne(c, s1, rest);
    RunOne(c, s2, ADDED);
    DutOne(c, s2, 0, 0);
    assert s2.m.exp == [x] + [y];
    Unlisted(c, s2.m, Write(0, 0), [x], [y]);
  }

  lemma AddedPerforms()
    ensures var ls := [REWRITE, Second(Write(1, 9)).(grp := 1), Second(Write(0, 5))];
            Performing(Config(2, false), Fresh(2), [Insn([Write(1, 9)])] + ([Insn([Write(0, 5)])] + ADDED), ls)
  {
    hide Does, Performing, Todo, StoreAll;
    var c, w, v, u := Config(2, false), Write(1, 9), Write(0, 5), Write(0, 0);
    var x, y, z := Second(w).(grp := 1), Second(v), Fresh(2).m.ram;
    var s2, ds := z[1 := 9][0 := 5], Writes([REWRITE, x, y]);
    NothingDone(c, s2, 2);
    DutDoes(c, s2, 2, v, [], [], []);
    DutDoes(c, s2, 2, w, [DutWrite(0, 5)] + [], [], [v] + []);
    DutDoes(c, s2, 2, u, [DutWrite(1, 9)] + ([DutWrite(0, 5)] + []), [], [w] + ([v] + []));
    assert [DutWrite(0, 0)] + ([DutWrite(1, 9)] + ([DutWrite(0, 5)] + [])) == ADDED;
    assert [u] + ([w] + ([v] + [])) == ds;
    StepOneDoes(c, z[1 := 9], 1, v, ADDED, [], ds);
    StepOneDoes(c, z, 0, w, [Insn([v])] + ADDED, [y] + [], ds);
    assert [x] + ([y] + []) == [x, y] && [REWRITE] + [x, y] == [REWRITE, x, y];
    forall g, a
      ensures Todo([REWRITE, x, y], g, a) == Todo([x, y], g, a)
    {
      TodoCons(REWRITE, [x, y], g, a);
    }
    PerformingFrom(c, [Insn([w])] + ([Insn([v])] + ADDED), [x, y], [REWRITE, x, y]);
  }

  // ---- What went wrong can come right ----

  const SECOND_STORES: seq<Write> := [Write(1, 5), Write(3, 1), Write(3, 2)]
  const SAME_AGAIN: seq<Event> := [DutWrite(1, 5), DutWrite(3, 1), DutWrite(3, 2), DutWrite(1, 5)]
  const THREE_STEPS: seq<Event> := [Insn([Write(0, 0)]), Insn(SECOND_STORES), Insn([Write(1, 5)])]
  const SECOND: seq<Ev> := [Second(Write(1, 5)), Second(Write(3, 1)), Second(Write(3, 2))]
  const THIRD: Ev := Ev(1, 5, false, true, false, 3)
  const FOUR: Config := Config(4, false)

  /** The reference with n of the second instruction's entries matched. */
  function AfterThree(exp: seq<Ev>): Machine {
    With(Fresh(4), exp, [0, 5, 0, 2], 3)
  }

  lemma SecondStores()
    ensures var st := StoreAll(FOUR, Stored(Fresh(4).m.ram, []), SECOND_STORES, false);
            st.ram == [0, 5, 0, 2] && Tagged(st.stage, 2) == SECOND
  {
    hide StoreByte;
    var c, s := FOUR, Stored(Fresh(4).m.ram, []);
    var v, w, x := Write(1, 5), Write(3, 1), Write(3, 2);
    StoreFirst(c, s, v);
    var s1 := StoreByte(c, s, 1, 5, false);
    StoreFirst(c, s1, w);
    var s2 := StoreByte(c, s1, 3, 1, false);
    StoreFirst(c, s2, x);
    var s3 := StoreByte(c, s2, 3, 2, false);
    assert s3.ram == [0, 5, 0, 2];
    assert s3.stage == [SECOND[0].(grp := 0), SECOND[1].(grp := 0), SECOND[2].(grp := 0)];
    assert SECOND_STORES[1..] == [w, x] && [w, x][1..] == [x] && [x][1..] == [];
    assert StoreAll(c, s, SECOND_STORES, false) == StoreAll(c, s1, [w, x], false) == StoreAll(c, s2, [x], false) == s3;
  }

  /** A step with nothing of z486's queued compares nothing. */
  lemma StepCompares(c: Config, s: Machine, future: seq<Ev>, ws: seq<Write>, rest: seq<Event>)
    requires Small(c, s) && Next(c, s, Insn(ws)).Running?
    ensures var evs, s' := [Insn(ws)] + rest, Next(c, s, Insn(ws)).s;
            CompareRun(c, s, [], future, evs) == CompareRun(c, s', [], future, rest)
  {
    hide Next, StoreAll;
    var evs := [Insn(ws)] + rest;
    assert evs[0] == Insn(ws) && evs[1..] == rest;
    var r := CompareRun(c, Next(c, s, Insn(ws)).s, [], future, rest);
    assert [] + r.cs == r.cs;
  }

  lemma DutCompares(c: Config, s: Machine, x: Ev, future: seq<Ev>, rest: seq<Event>)
    requires Small(c, s) && 0 <= x.addr < c.ramBytes
    requires MatchWrite(c, s.m, Of(x)).ok && MatchWrite(c, s.m, Of(x)).m.dut == []
    ensures var evs, s' := [DutWrite(x.addr, x.val)] + rest, s.(m := MatchWrite(c, s.m, Of(x)).m);
            var r := CompareRun(c, s', [], future, rest);
            && CompareRun(c, s, [], [x] + future, evs) == r.(cs := [Compared(s.m, x)] + r.cs)
            && Run(c, s, evs) == Run(c, s', rest)
  {
    hide MatchWrite, Next;
    DutOne(c, s, x.addr, x.val);
    var evs := [DutWrite(x.addr, x.val)] + rest;
    assert evs[0] == DutWrite(x.addr, x.val) && evs[1..] == rest && ([x] + future)[1..] == future;
  }

  lemma ThreeStates() returns (s1: Machine, s2: Machine, s3: Machine)
    ensures Small(FOUR, Fresh(4)) && Next(FOUR, Fresh(4), THREE_STEPS[0]) == Running(s1)
    ensures Small(FOUR, s1) && Next(FOUR, s1, THREE_STEPS[1]) == Running(s2)
    ensures Small(FOUR, s2) && Next(FOUR, s2, THREE_STEPS[2]) == Running(s3)
    ensures Small(FOUR, s3) && s3 == AfterThree([REWRITE] + (SECOND + [THIRD]))
  {
    hide Next, StoreAll, Tagged;
    var s := Fresh(4);
    StepOne(FOUR, s, Write(0, 0));
    assert s.m.ram[0 := 0] == s.m.ram && [] + [REWRITE] == [REWRITE];
    s1 := With(s, [REWRITE], s.m.ram, 1);
    StepStores(FOUR, s1, SECOND_STORES);
    SecondStores();
    s2 := With(s, [REWRITE] + SECOND, [0, 5, 0, 2], 2);
    StepOne(FOUR, s2, Write(1, 5));
    assert s2.m.ram[1 := 5] == s2.m.ram && [REWRITE] + SECOND + [THIRD] == [REWRITE] + (SECOND + [THIRD]);
    s3 := AfterThree([REWRITE] + (SECOND + [THIRD]));
  }

  lemma ThreeSplit<T>(e: seq<T>, rest: seq<T>)
    requires |e| == 3
    ensures var q2, q1 := [e[2]] + rest, [e[1]] + ([e[2]] + rest);
            e + rest == [e[0]] + q1 && ([e[0]] + q1)[1..] == q1 && q1[1..] == q2 && q2[1..] == rest
  {
  }

  lemma ThreeSteps(rest: seq<Event>, future: seq<Ev>)
    ensures var s := AfterThree([REWRITE] + (SECOND + [THIRD]));
            && Small(FOUR, s) && Run(FOUR, Fresh(4), THREE_STEPS + rest) == Run(FOUR, s, rest)
            && CompareRun(FOUR, Fresh(4), [], future, THREE_STEPS + rest) == CompareRun(FOUR, s, [], future, rest)
  {
    hide Next, Run, CompareRun, AfterThree, With, Fresh;
    var e := THREE_STEPS;
    var s1, s2, s3 := ThreeStates();
    var q2, q1 := [e[2]] + rest, [e[1]] + ([e[2]] + rest);
    ThreeSplit(e, rest);
    RunOne(FOUR, Fresh(4), [e[0]] + q1);
    RunOne(FOUR, s1, q1);
    RunOne(FOUR, s2, q2);
    StepCompares(FOUR, Fresh(4), future, [Write(0, 0)], q1);
    StepCompares(FOUR, s1, future, SECOND_STORES, q2);
    StepCompares(FOUR, s2, future, [Write(1, 5)], rest);
  }

  /** The matcher, with the second instruction's entries matched as given. */
  function Left(x: bool, y: bool, z: bool): seq<Ev> {
    [SECOND[0].(done := x), SECOND[1].(done := y), SECOND[2].(done := z)]
  }

  function Facing(q: seq<Ev>): Match {
    Match(q, [], [0, 5, 0, 2])
  }

  /** z486's first write is swallowed; the second passes the first
      instruction. */
  lemma FirstMatches()
    ensures var m := Facing([REWRITE] + (SECOND + [THIRD]));
            && MatchWrite(FOUR, m, Write(1, 5)) == Reply(m, true)
            && MatchWrite(FOUR, m, Write(3, 1)) == Reply(Facing(Left(false, true, false) + [THIRD]), true)
            && FirstPending(m.exp, 1) == 1 == GroupLen(m.exp, m.exp[0].grp) && Advance(m.exp) == m.exp
            && Holds(FOUR, m, Write(1, 5))
  {
    hide MatchWrite, InRam, Index, Advance;
    var m := Facing([REWRITE] + (SECOND + [THIRD]));
    LowAddress(FOUR, m.ram, 1);
    LowAddress(FOUR, m.ram, 3);
    Unlisted(FOUR, m, Write(1, 5), [REWRITE], SECOND + [THIRD]);
    Unlisted(FOUR, m, Write(3, 1), [REWRITE], SECOND + [THIRD]);
    Listed(FOUR, Facing(SECOND + [THIRD]), Write(3, 1), SECOND, [THIRD], 1);
    assert SECOND[1 := SECOND[1].(done := true)] == Left(false, true, false);
    Oldest(Left(false, true, false), [THIRD]);
    Oldest([REWRITE], SECOND + [THIRD]);
    FirstIs(m.exp, 1, 1);
  }

  /** The last takes the entry that the first should have. */
  lemma LastMatches()
    ensures MatchWrite(FOUR, Facing(Left(false, true, false) + [THIRD]), Write(3, 2))
         == Reply(Facing(Left(false, true, true) + [THIRD]), true)
    ensures MatchWrite(FOUR, Facing(Left(false, true, true) + [THIRD]), Write(1, 5)) == Reply(Facing([THIRD]), true)
  {
    hide MatchWrite, InRam, Index, Advance;
    var p, q, r := Left(false, true, false), Left(false, true, true), Left(true, true, true);
    assert p[2 := p[2].(done := true)] == q && q[0 := q[0].(done := true)] == r;
    Listed(FOUR, Facing(p + [THIRD]), Write(3, 2), p, [THIRD], 2);
    Oldest(q, [THIRD]);
    Listed(FOUR, Facing(q + [THIRD]), Write(1, 5), q, [THIRD], 0);
    AdvanceConcat(r, [THIRD]);
    AdvanceThird();
  }

  lemma AdvanceThird()
    ensures Advance([THIRD]) == [THIRD]
  {
  }

  const FOUR_LABELS: seq<Ev> := SECOND + [THIRD]

  /** z486 leaves out the rewriting of byte 0, and its (1, 5) is swallowed;
      but the third instruction's rewriting of byte 1, which it makes, is
      then matched with the entry that was left: the run is accepted and
      drains, although one write was lost. */
  lemma LostAndStolenRun()
    ensures var evs := THREE_STEPS + SAME_AGAIN;
            && Performing(FOUR, Fresh(4), evs, FOUR_LABELS) && AcceptedAndDrained(FOUR, Fresh(4), evs, FOUR_LABELS)
            && !AllFine(FOUR, CompareRun(FOUR, Fresh(4), [], FOUR_LABELS, evs).cs)
  {
    hide Run, CompareRun, Performing, MatchWrite, Advance, FirstPending, GroupLen, Holds, Fresh;
    LostAndStolenPerforms();
    ThreeSteps(SAME_AGAIN, FOUR_LABELS);
    FirstMatches();
    var s := AfterThree([REWRITE] + (SECOND + [THIRD]));
    var r := CompareRun(FOUR, s, [], FOUR_LABELS, SAME_AGAIN);
    LostAndStolenCompares();
    assert !Fine(FOUR, r.cs[0]);
  }

  lemma LostAndStolenCompares()
    ensures var s := AfterThree([REWRITE] + (SECOND + [THIRD]));
            var r := CompareRun(FOUR, s, [], FOUR_LABELS, SAME_AGAIN);
            && r.cs != [] && r.cs[0] == Compared(s.m, SECOND[0]) && r.queue == []
            && Run(FOUR, s, SAME_AGAIN) == Running(AfterThree([THIRD]))
  {
    hide Next, MatchWrite, Left;
    FirstMatches();
    LastMatches();
    var f, e := FOUR_LABELS, SAME_AGAIN;
    var s, s2 := AfterThree([REWRITE] + (SECOND + [THIRD])), AfterThree(Left(false, true, false) + [THIRD]);
    var s3, s4 := AfterThree(Left(false, true, true) + [THIRD]), AfterThree([THIRD]);
    assert e == [e[0]] + e[1..] && e[1..] == [e[1]] + e[2..] && e[2..] == [e[2]] + e[3..] && e[3..] == [e[3]] + [];
    assert f == [f[0]] + f[1..] && f[1..] == [f[1]] + f[2..] && f[2..] == [f[2]] + f[3..] && f[3..] == [f[3]] + [];
    DutCompares(FOUR, s, f[0], f[1..], e[1..]);
    DutCompares(FOUR, s, f[1], f[2..], e[2..]);
    DutCompares(FOUR, s2, f[2], f[3..], e[3..]);
    DutCompares(FOUR, s3, f[3], [], []);
  }

  lemma LostAndStolenPerforms()
    ensures Performing(FOUR, Fresh(4), THREE_STEPS + SAME_AGAIN, FOUR_LABELS)
  {
    hide Does, Performing, Todo, StoreAll;
    var c, z, ram, e := FOUR, Fresh(4).m.ram, [0, 5, 0, 2], SAME_AGAIN;
    var d1, d2, d3 := Write(1, 5), Write(3, 1), Write(3, 2);
    NothingDone(c, ram, 3);
    DutDoes(c, ram, 3, d1, [], [], []);
    DutDoes(c, ram, 3, d3, [e[3]] + [], [], [d1] + []);
    DutDoes(c, ram, 3, d2, [e[2]] + ([e[3]] + []), [], [d3] + ([d1] + []));
    DutDoes(c, ram, 3, d1, [e[1]] + ([e[2]] + ([e[3]] + [])), [], [d2] + ([d3] + ([d1] + [])));
    assert e == [e[0]] + ([e[1]] + ([e[2]] + ([e[3]] + [])));
    assert [d1] + ([d2] + ([d3] + ([d1] + []))) == Writes(FOUR_LABELS);
    assert ram[1 := 5] == ram && z[0 := 0] == z;
    StepOneDoes(c, ram, 2, d1, e, [], Writes(FOUR_LABELS));
    SecondStores();
    StepDoes(c, z, 1, SECOND_STORES, [THREE_STEPS[2]] + e, [THIRD] + [], Writes(FOUR_LABELS));
    assert SECOND + ([THIRD] + []) == FOUR_LABELS;
    StepOneDoes(c, z, 0, Write(0, 0), [THREE_STEPS[1]] + ([THREE_STEPS[2]] + e), FOUR_LABELS, Writes(FOUR_LABELS));
    assert THREE_STEPS + e == [THREE_STEPS[0]] + ([THREE_STEPS[1]] + ([THREE_STEPS[2]] + e));
    forall g, a
      ensures Todo(FOUR_LABELS, g, a) == Todo([REWRITE] + FOUR_LABELS, g, a)
    {
      TodoCons(REWRITE, FOUR_LABELS, g, a);
    }
    PerformingFrom(c, THREE_STEPS + e, [REWRITE] + FOUR_LABELS, FOUR_LABELS);
  }
}
