/** When a write by another bus master, or an adopted x87 store, leaves a byte
    sure to be the same on both sides; and, when it does not, a run that
    reports nothing, drains, and ends with unequal memories. */
module UnequalRuns {
  import opened Platform
  import opened EventQueue
  import opened WriteMatcher
  import opened Outstanding
  import opened MatcherSoundness
  import opened CosimRun
  import opened RunSoundness
  import opened RunTheorems
  import MatcherCompleteness
  import Rollback

  // ---- z486 catches up ----

  /** The unmatched entries, in order. */
  function Unmatched(q: seq<Ev>): seq<Ev> {
    if q == [] then [] else (if q[0].done then [] else [q[0]]) + Unmatched(q[1..])
  }

  lemma {:induction false} UnmatchedAdvance(q: seq<Ev>)
    ensures Unmatched(Advance(q)) == Unmatched(q)
    ensures Unmatched(q) == [] <==> Advance(q) == []
  {
    if q != [] && q[0].done {
      UnmatchedAdvance(q[1..]);
    }
  }

  lemma {:induction false} UnmatchedConcat(p: seq<Ev>, q: seq<Ev>)
    ensures Unmatched(p + q) == Unmatched(p) + Unmatched(q)
  {
    if p == [] {
      assert p + q == q;
    } else {
      assert (p + q)[1..] == p[1..] + q;
      UnmatchedConcat(p[1..], q);
    }
  }

  lemma ValuesCons(e: Ev, q: seq<Ev>)
    ensures Values([e] + q) == [e.val] + Values(q)
  {
  }

  lemma {:induction false} UnmatchedValues(q: seq<Ev>, a: int)
    ensures Stream(Writes(Unmatched(q)), a) == Values(Undone(q, a))
  {
    if q == [] {
      assert Writes([]) == [];
    } else {
      UnmatchedValues(q[1..], a);
      var u, v := Unmatched(q[1..]), Undone(q[1..], a);
      assert [] + u == u && [] + v == v;
      if !q[0].done {
        assert Writes([q[0]] + u) == [Write(q[0].addr, q[0].val)] + Writes(u);
        StreamCons(Write(q[0].addr, q[0].val), Writes(u), a);
        ValuesCons(q[0], v);
      }
    }
  }

  /** The oldest unmatched entry's write is matched with it. */
  lemma MatchOldest(c: Config, m: Match)
    requires c.ramBytes <= |m.ram| && Unmatched(m.exp) != []
    ensures var e := Unmatched(m.exp)[0];
            var r := MatchWrite(c, m, Write(e.addr, e.val));
            r.ok && r.m.ram == m.ram && r.m.dut == m.dut && Unmatched(r.m.exp) == Unmatched(m.exp)[1..]
  {
    UnmatchedAdvance(m.exp);
    var exp := Advance(m.exp);
    var e, n := exp[0], GroupLen(exp, exp[0].grp);
    assert FirstPending(exp[..n], e.addr) == 0;
    Found(c, m, Write(e.addr, e.val), exp, n, 0);
    var marked := exp[0 := e.(done := true)];
    assert marked[1..] == exp[1..];
    UnmatchedAdvance(marked);
  }

  lemma OldestNotAdopted(c: Config, m: Match)
    requires c.ramBytes <= |m.ram| && Unmatched(m.exp) != []
    ensures var e := Unmatched(m.exp)[0]; !Adopts(c, m, Write(e.addr, e.val))
  {
    UnmatchedAdvance(m.exp);
    var exp := Advance(m.exp);
    var n := GroupLen(exp, exp[0].grp);
    assert FirstPending(exp[..n], exp[0].addr) == 0;
  }

  /** z486 performs all that is outstanding: accepted, nothing adopted, and
      nothing is left. */
  lemma {:induction false} CatchesUp(c: Config, m: Match, ds: seq<Ev>)
    requires c.ramBytes <= |m.ram| && m.dut == [] && Writes(ds) == Writes(Unmatched(m.exp))
    ensures var r := MatchAll(c, m, ds);
            r.ok && r.m.ram == m.ram && r.m.dut == [] && AllDone(r.m.exp)
    ensures forall a :: CarefulAll(c, m, ds, a)
    decreases ds
  {
    hide MatchWrite, Unmatched, Adopts;
    UnmatchedAdvance(m.exp);
    if ds == [] {
      assert |Unmatched(m.exp)| == |Writes(ds)| == 0;
      MatcherCompleteness.NothingPending(m.exp);
    } else {
      var u := Unmatched(m.exp);
      assert |u| == |Writes(u)| == |ds|;
      assert Writes(ds)[0] == Writes(u)[0];
      MatchOldest(c, m);
      OldestNotAdopted(c, m);
      var r := MatchWrite(c, m, Write(ds[0].addr, ds[0].val)).m;
      assert Writes(ds[1..]) == Writes(ds)[1..] == Writes(u)[1..] == Writes(u[1..]);
      CatchesUp(c, r, ds[1..]);
    }
  }

  /** z486's writes as bus events, with A20 on. */
  function BusWrites(ds: seq<Ev>): seq<Event>
    requires Low(ds)
  {
    if ds == [] then [] else [DutWrite(ds[0].addr, ds[0].val)] + BusWrites(ds[1..])
  }

  /** Addresses that a CPU's write can have. */
  predicate Low(ds: seq<Ev>) {
    forall e :: e in ds ==> 0 <= e.addr < BIOS_ALIAS
  }

  /** A run that the other bus masters and the adoptions leave on course. */
  ghost predicate Behaved(c: Config, s: Machine, evs: seq<Event>)
    requires Fits(c, s)
  {
    PoliteRun(c, s, evs) && forall a :: CarefulRun(c, s, evs, a)
  }

  lemma {:induction false} BusWritesRun(c: Config, s: Machine, o: Observed, ds: seq<Ev>)
    requires Fits(c, s) && c.ramBytes <= |o.z| && s.a20 && Low(ds) && MatchAll(c, s.m, ds).ok
    requires forall a :: CarefulAll(c, s.m, ds, a)
    ensures Run(c, s, BusWrites(ds)) == Running(s.(m := MatchAll(c, s.m, ds).m)) && Behaved(c, s, BusWrites(ds))
    ensures ObserveAll(c, true, o, BusWrites(ds)).z == PutAll(c, o.z, ds)
    decreases ds
  {
    hide MatchWrite, Careful;
    if ds != [] {
      var e, rest := DutWrite(ds[0].addr, ds[0].val), BusWrites(ds[1..]);
      var evs, w := [e] + rest, Write(ds[0].addr, ds[0].val);
      assert evs[0] == e && evs[1..] == rest && ds[0] in ds;
      assert PlatformPhys(true, ds[0].addr) == ds[0].addr;
      assert Next(c, s, e) == Running(s.(m := MatchWrite(c, s.m, w).m));
      assert CarefulAll(c, s.m, ds, w.addr);
      forall a
        ensures CarefulAll(c, MatchWrite(c, s.m, w).m, ds[1..], a)
      {
        assert CarefulAll(c, s.m, ds, a);
      }
      BusWritesRun(c, Next(c, s, e).s, Observe(c, true, o, e), ds[1..]);
      forall a
        ensures CarefulRun(c, s, evs, a)
      {
        assert CarefulAll(c, s.m, ds, a) && CarefulRun(c, Next(c, s, e).s, rest, a);
      }
    }
  }

  // ---- The memories afterwards ----

  /** A run goes on without a report, with no more from the other bus masters
      than is harmless and no careless adoption, drains its memory writes, and
      leaves the memories unequal at byte a. */
  ghost predicate EndsUnequal(c: Config, s: Machine, o: Observed, evs: seq<Event>, a: int)
    requires Fits(c, s) && c.ramBytes <= |o.z|
  {
    && Behaved(c, s, evs) && Run(c, s, evs).Running?
    && var t := Run(c, s, evs).s;
       && AllDone(t.m.exp) && t.m.dut == [] && t.expIo == s.expIo && t.dutIo == s.dutIo
       && InRam(c, a) && ObserveAll(c, s.a20, o, evs).z[a] != t.m.ram[a]
  }

  /** With the reference ahead, z486 performs what is outstanding, the last
      write of a byte last; if the reference's RAM holds another value by
      then, the memories differ. */
  lemma CatchingUpUnequal(c: Config, s: Machine, o: Observed, a: int) returns (evs: seq<Event>)
    requires Fits(c, s) && c.ramBytes <= |o.z| && s.m.dut == [] && InRam(c, a) && Low(Unmatched(s.m.exp))
    requires !Settled(CellOf(s.m, [], o.z[a], a))
    ensures EndsUnequal(c, s, o, evs, a)
  {
    hide Undone, Unmatched, Stream, Run, ObserveAll, MatchAll, PutAll, BusWrites, Values, PoliteRun, CarefulRun, Low;
    hide CarefulAll, Leads;
    var ds := Unmatched(s.m.exp);
    var s' := s.(a20 := true);
    evs := [SetA20(true)] + BusWrites(ds);
    CatchesUp(c, s.m, ds);
    BusWritesRun(c, s', o, ds);
    A20First(c, s, o, BusWrites(ds));
    UnmatchedValues(s.m.exp, a);
    PutAllAt(c, o.z, ds, a);
    NothingWaits(s.m, a);
    LastValue(Undone(s.m.exp, a));
  }

  lemma NothingWaits(m: Match, a: int)
    requires m.dut == []
    ensures Stream(Writes(m.dut) + Writes([]), a) == []
  {
    assert Writes(m.dut) + Writes([]) == [];
  }

  lemma LastValue(u: seq<Ev>)
    ensures |Values(u)| == |u| && (u != [] ==> Values(u)[|u| - 1] == u[|u| - 1].val)
  {
  }

  lemma A20First(c: Config, s: Machine, o: Observed, rest: seq<Event>)
    requires Fits(c, s) && c.ramBytes <= |o.z| && Behaved(c, s.(a20 := true), rest)
    ensures var evs := [SetA20(true)] + rest;
            && Run(c, s, evs) == Run(c, s.(a20 := true), rest) && Behaved(c, s, evs)
            && ObserveAll(c, s.a20, o, evs) == ObserveAll(c, true, o, rest)
  {
    var evs := [SetA20(true)] + rest;
    assert evs[0] == SetA20(true) && evs[1..] == rest;
    assert Next(c, s, SetA20(true)) == Running(s.(a20 := true));
    forall a
      ensures CarefulRun(c, s, evs, a)
    {
      assert CarefulRun(c, s.(a20 := true), rest, a);
    }
  }

  lemma {:induction false} StoresPut(c: Config, s: Stored, ws: seq<Write>, fpu: bool, ds: seq<Ev>)
    requires 0 < |s.ram| && c.ramBytes <= |s.ram| && Writes(ds) == ws
    ensures StoreAll(c, s, ws, fpu).ram == PutAll(c, s.ram, ds)
    decreases ws
  {
    if ws != [] {
      assert Writes(ds[1..]) == Writes(ds)[1..] && Writes(ds)[0] == Write(ds[0].addr, ds[0].val);
      var s1 := StoreByte(c, s, ws[0].addr, ws[0].val, fpu);
      if InRam(c, ws[0].addr) {
        IndexInRam(s.ram, ws[0].addr);
      }
      StoresPut(c, s1, ws[1..], fpu, ds[1..]);
    }
  }

  lemma {:induction false} AllUnmatched(q: seq<Ev>)
    requires forall k :: 0 <= k < |q| ==> !q[k].done
    ensures Unmatched(q) == q
  {
    if q != [] {
      AllUnmatched(q[1..]);
      assert q == [q[0]] + q[1..];
    }
  }

  lemma {:induction false} NoneUnmatched(q: seq<Ev>)
    requires AllDone(q)
    ensures Unmatched(q) == []
  {
    if q != [] {
      assert q[0] in q;
      NoneUnmatched(q[1..]);
    }
  }

  lemma {:induction false} StagedUndone(c: Config, s: Stored, ws: seq<Write>, fpu: bool)
    requires 0 < |s.ram| && c.ramBytes <= |s.ram| && forall e :: e in s.stage ==> !e.done
    ensures forall e :: e in StoreAll(c, s, ws, fpu).stage ==> !e.done
    decreases ws
  {
    if ws != [] {
      StagedUndone(c, StoreByte(c, s, ws[0].addr, ws[0].val, fpu), ws[1..], fpu);
    }
  }

  /** The reference performs z486's queued writes in one step. */
  lemma ReferenceCatchesUp(c: Config, s: Machine)
    requires Fits(c, s) && AllDone(s.m.exp)
    ensures var ws := Writes(s.m.dut);
            var st := Staged(c, s, ws, false);
            var r := Commit(c, s.m.(ram := st.ram), st.stage, s.ninsn + 1);
            && r.ok && r.m.ram == st.ram == PutAll(c, s.m.ram, s.m.dut) && r.m.dut == [] && AllDone(r.m.exp)
            && (forall a :: CarefulAll(c, Joined(c, s, ws, false), s.m.dut, a))
  {
    hide CarefulAll, StoreAll, MatchAll, Unmatched, PutAll;
    var ws := Writes(s.m.dut);
    var base := Stored(s.m.ram, []);
    var st := Staged(c, s, ws, false);
    var added := Tagged(st.stage, s.ninsn + 1);
    StoresPut(c, base, ws, false, s.m.dut);
    StagedUndone(c, base, ws, false);
    Rollback.StagedWrites(c, base, ws, false);
    assert Writes([]) + ws == ws;
    AllUnmatched(added);
    NoneUnmatched(s.m.exp);
    UnmatchedConcat(s.m.exp, added);
    assert Writes(added) == Writes(st.stage) == ws;
    CatchesUp(c, Match(s.m.exp + added, [], st.ram), s.m.dut);
  }

  /** With z486 ahead, the other way round. */
  lemma CaughtUpUnequal(c: Config, s: Machine, o: Observed, a: int) returns (evs: seq<Event>)
    requires Fits(c, s) && c.ramBytes <= |o.z| && AllDone(s.m.exp) && InRam(c, a)
    requires s.expIo == [] || s.dutIo == []
    requires !Settled(CellOf(s.m, [], o.z[a], a))
    ensures EndsUnequal(c, s, o, evs, a)
  {
    hide Next, Run, ObserveAll, MatchAll, StoreAll, PutAll, Stream, PoliteRun, CarefulRun, CarefulAll, Leads, Undone;
    var e := Step(Writes(s.m.dut), [], false);
    evs := [e];
    ReferenceCatchesUp(c, s);
    PutAllAt(c, s.m.ram, s.m.dut, a);
    AllDoneUndone(s.m.exp, a);
    assert Writes(s.m.dut) + Writes([]) == Writes(s.m.dut);
    var st := Staged(c, s, e.stores, false);
    var r := Commit(c, s.m.(ram := st.ram), st.stage, s.ninsn + 1);
    StepTo(c, s, e, r.m);
    OneEvent(c, s, o, e);
  }

  lemma StepTo(c: Config, s: Machine, e: Event, m: Match)
    requires Fits(c, s) && e.Step? && e.outs == [] && (s.expIo == [] || s.dutIo == [])
    requires var st := Staged(c, s, e.stores, e.fpu);
             Commit(c, s.m.(ram := st.ram), st.stage, s.ninsn + 1) == Reply(m, true)
    ensures Next(c, s, e) == Running(Machine(m, s.expIo, s.dutIo, s.a20, s.ninsn + 1))
  {
    hide MatchAll, StoreAll;
    OutputsStay(s.expIo, s.dutIo);
    assert s.expIo + [] == s.expIo;
  }

  lemma OneEvent(c: Config, s: Machine, o: Observed, e: Event)
    requires Fits(c, s) && c.ramBytes <= |o.z|
    ensures Run(c, s, [e]) == Next(c, s, e)
    ensures e.Step? && (forall a :: CarefulAll(c, Joined(c, s, e.stores, e.fpu), s.m.dut, a)) ==> Behaved(c, s, [e])
    ensures ObserveAll(c, s.a20, o, [e]) == Observe(c, s.a20, o, e)
  {
    hide Next, CarefulAll;
    assert [e][1..] == [];
    if e.Step? && forall a :: CarefulAll(c, Joined(c, s, e.stores, e.fpu), s.m.dut, a) {
      forall a
        ensures CarefulRun(c, s, [e], a)
      {
        OneCareful(c, s, e, a);
      }
      assert PoliteRun(c, s, [e]);
    }
  }

  lemma OneCareful(c: Config, s: Machine, e: Event, a: int)
    requires Fits(c, s) && e.Step? && CarefulAll(c, Joined(c, s, e.stores, e.fpu), s.m.dut, a)
    ensures CarefulRun(c, s, [e], a)
  {
    hide Next, CarefulAll;
    assert [e][1..] == [];
  }

  lemma {:induction false} OutputsStay(expIo: seq<Write>, dutIo: seq<Write>)
    requires expIo == [] || dutIo == []
    ensures MatchAllIo(expIo, [], dutIo) == IoReply(expIo, dutIo, true)
  {
    if expIo == [] {
      OutputsQueue([], dutIo);
      assert [] + dutIo == dutIo;
    }
  }

  lemma {:induction false} OutputsQueue(queued: seq<Write>, ws: seq<Write>)
    ensures MatchAllIo([], queued, ws) == IoReply([], queued + ws, true)
    decreases ws
  {
    if ws == [] {
      assert queued + [] == queued;
    } else {
      OutputsQueue(queued + [ws[0]], ws[1..]);
      assert queued + [ws[0]] + ws[1..] == queued + ws;
    }
  }

  // ---- What is sure ----

  /** However the run goes on, if nothing is reported, the other bus masters
      do no harm, no x87 store of the byte is adopted carelessly and the memory
      writes drain, byte a is the same on both sides. */
  ghost predicate AgreesWhenDrained(c: Config, s: Machine, o: Observed, a: int)
    requires Fits(c, s) && |o.z| == |s.m.ram|
  {
    InRam(c, a) ==>
      forall evs :: PoliteRun(c, s, evs) && CarefulRun(c, s, evs, a) && Run(c, s, evs).Running?
                    && AllDone(Run(c, s, evs).s.m.exp) && Run(c, s, evs).s.m.dut == [] ==>
        ObserveAll(c, s.a20, o, evs).z[a] == Run(c, s, evs).s.m.ram[a]
  }

  lemma SoundAgrees(c: Config, s: Machine, o: Observed, a: nat)
    requires Good(c, s, o) && InRam(c, a) && Sound(CellOf(s.m, [], o.z[a], a))
    ensures AgreesWhenDrained(c, s, o, a)
  {
    hide Run, ObserveAll, PoliteRun, AllDone, CarefulRun, Sound, Good, CellOf;
    GoodParts(c, s, o);
    forall evs | PoliteRun(c, s, evs) && CarefulRun(c, s, evs, a) && Run(c, s, evs).Running?
                 && AllDone(Run(c, s, evs).s.m.exp) && Run(c, s, evs).s.m.dut == []
      ensures ObserveAll(c, s.a20, o, evs).z[a] == Run(c, s, evs).s.m.ram[a]
    {
      SoundRun(c, s, o, evs, a);
      DrainedAgrees(Run(c, s, evs).s.m, ObserveAll(c, s.a20, o, evs).z[a], a);
    }
  }

  lemma DrainedAgrees(m: Match, z: Byte, a: nat)
    requires a < |m.ram| && Sound(CellOf(m, [], z, a)) && AllDone(m.exp) && m.dut == []
    ensures z == m.ram[a]
  {
    NothingInFlight(m, a);
    NothingWaits(m, a);
  }

  lemma UnequalDisagrees(c: Config, s: Machine, o: Observed, evs: seq<Event>, a: int)
    requires Fits(c, s) && |o.z| == |s.m.ram| && EndsUnequal(c, s, o, evs, a)
    ensures !AgreesWhenDrained(c, s, o, a)
  {
    hide Run, ObserveAll, PoliteRun, AllDone, CarefulRun;
  }

  /** A byte that is loosely on course is sure to agree if and only if it is
      settled: with each side performing what the other already has, it is the
      same on both. */
  lemma SettledIff(c: Config, s: Machine, o: Observed, a: nat)
    requires Good(c, s, o) && InRam(c, a) && Loose(CellOf(s.m, [], o.z[a], a)) && Low(Unmatched(s.m.exp))
    ensures Settled(CellOf(s.m, [], o.z[a], a)) <==> AgreesWhenDrained(c, s, o, a)
  {
    hide AgreesWhenDrained, EndsUnequal, Unmatched, Low, Settled, Loose, Sound, CellOf;
    GoodParts(c, s, o);
    if Settled(CellOf(s.m, [], o.z[a], a)) {
      OneSidedCell(s.m, o.z[a], a);
      SettledIsSound(CellOf(s.m, [], o.z[a], a));
      SoundAgrees(c, s, o, a);
    } else {
      var evs;
      if s.m.dut == [] {
        evs := CatchingUpUnequal(c, s, o, a);
      } else {
        evs := CaughtUpUnequal(c, s, o, a);
      }
      UnequalDisagrees(c, s, o, evs, a);
    }
  }

  lemma OneSidedCell(m: Match, z: Byte, a: nat)
    requires Leads(m) && a < |m.ram|
    ensures CellOf(m, [], z, a).v == [] || CellOf(m, [], z, a).u == []
  {
    if m.dut == [] {
      NothingWaits(m, a);
    } else {
      AllDoneUndone(m.exp, a);
    }
  }

  // ---- Another bus master's write ----

  lemma HarmlessIsSettled(c: Config, s: Machine, phys: int, val: Byte)
    requires Fits(c, s) && Leads(s.m) && InRam(c, phys)
    ensures Harmless(c, s, phys, val) <==> Settled(CellOf(Poked(c, s, phys, val).m, [], val, phys))
  {
    hide Undone, Stream, Leads, Values, InFlight;
    InFlightIs(s, phys);
    LastValue(Undone(s.m.exp, phys));
  }

  lemma PokedIsLoose(x: Cell, val: Byte)
    requires Sound(x)
    ensures Loose(x.(r := val, z := val))
  {
    SoundIsSettled(x);
  }

  lemma PokedIsGood(c: Config, s: Machine, o: Observed, phys: int, val: Byte)
    requires Good(c, s, o) && 0 <= phys
    ensures Good(c, Poked(c, s, phys, val), o.(z := Poke(c, o.z, phys, val)))
  {
  }

  /** A bus master's write that is not harmless: from any state that a run
      without a report has led to, there is a way on that reports nothing,
      drains, and leaves the memories unequal at the byte written. */
  lemma HarmfulPokeShows(c: Config, s: Machine, o: Observed, phys: int, val: Byte) returns (evs: seq<Event>)
    requires Good(c, s, o) && 0 <= phys && Low(Unmatched(s.m.exp)) && !Harmless(c, s, phys, val)
    ensures EndsUnequal(c, Poked(c, s, phys, val), o.(z := Poke(c, o.z, phys, val)), evs, phys)
  {
    hide EndsUnequal, Unmatched, Low, Settled;
    HarmfulIsInRam(c, s, phys, val);
    HarmlessIsSettled(c, s, phys, val);
    var s', o' := Poked(c, s, phys, val), o.(z := Poke(c, o.z, phys, val));
    if s.m.dut == [] {
      evs := CatchingUpUnequal(c, s', o', phys);
    } else {
      evs := CaughtUpUnequal(c, s', o', phys);
    }
  }

  lemma HarmfulIsInRam(c: Config, s: Machine, phys: int, val: Byte)
    requires !Harmless(c, s, phys, val)
    ensures InRam(c, phys)
  {
  }

  /** After any run without a report or a careless adoption of its byte: a bus
      master's write is harmless if and only if its byte is sure to be the same
      on both sides whenever the run has gone on so and drained. */
  lemma PokeSafeIff(c: Config, s0: Machine, o0: Observed, evs: seq<Event>, phys: int, val: Byte)
    requires CleanRun(c, s0, o0, evs) && 0 <= phys && CarefulRun(c, s0, evs, phys)
    requires Low(Unmatched(Run(c, s0, evs).s.m.exp))
    ensures var s, o := Run(c, s0, evs).s, ObserveAll(c, s0.a20, o0, evs);
            && |o.z| == |s.m.ram|
            && (Harmless(c, s, phys, val)
                <==> AgreesWhenDrained(c, Poked(c, s, phys, val), o.(z := Poke(c, o.z, phys, val)), phys))
  {
    hide AgreesWhenDrained, Harmless, Unmatched, Low, Run, ObserveAll, PoliteRun, CarefulRun, Sound, Loose, Settled;
    var s, o := Run(c, s0, evs).s, ObserveAll(c, s0.a20, o0, evs);
    GoodStart(c, s0, o0);
    GoodRun(c, s0, o0, evs);
    PokedIsGood(c, s, o, phys, val);
    if InRam(c, phys) {
      StartSound(c, s0, o0, phys);
      SoundRun(c, s0, o0, evs, phys);
      PokedIsLoose(CellOf(s.m, [], o.z[phys], phys), val);
      HarmlessIsSettled(c, s, phys, val);
      SettledIff(c, Poked(c, s, phys, val), o.(z := Poke(c, o.z, phys, val)), phys);
    } else {
      OutsideIsHarmless(c, s, o, phys, val);
    }
  }

  lemma OutsideIsHarmless(c: Config, s: Machine, o: Observed, phys: int, val: Byte)
    requires Fits(c, s) && |o.z| == |s.m.ram| && 0 <= phys && !InRam(c, phys)
    ensures Harmless(c, s, phys, val)
    ensures AgreesWhenDrained(c, Poked(c, s, phys, val), o.(z := Poke(c, o.z, phys, val)), phys)
  {
  }

  // ---- One event ----

  /** After any run without a report or a careless adoption of the byte, any
      one event, careful or not: the byte is sure to agree afterwards if and
      only if it is settled; and with care it is. */
  lemma EventSafeIff(c: Config, s0: Machine, o0: Observed, evs: seq<Event>, e: Event, a: nat)
    requires CleanRun(c, s0, o0, evs) && InRam(c, a) && CarefulRun(c, s0, evs, a)
    requires var s := Run(c, s0, evs).s;
             Polite(c, s, e) && Next(c, s, e).Running? && Low(Unmatched(Next(c, s, e).s.m.exp))
    ensures var s, o := Run(c, s0, evs).s, ObserveAll(c, s0.a20, o0, evs);
            var s', o' := Next(c, s, e).s, Observe(c, s.a20, o, e);
            && |o'.z| == |s'.m.ram|
            && (Settled(CellOf(s'.m, [], o'.z[a], a)) <==> AgreesWhenDrained(c, s', o', a))
            && (CarefulEvent(c, s, e, a) ==> Settled(CellOf(s'.m, [], o'.z[a], a)))
  {
    hide AgreesWhenDrained, Unmatched, Low, Run, ObserveAll, PoliteRun, CarefulRun, Sound, Loose, Settled, Next;
    hide Observe, CarefulEvent, Polite, CellOf, Good;
    var s, o := Run(c, s0, evs).s, ObserveAll(c, s0.a20, o0, evs);
    GoodStart(c, s0, o0);
    StartSound(c, s0, o0, a);
    SoundRun(c, s0, o0, evs, a);
    GoodParts(c, s, o);
    GoodNext(c, s, o, e);
    var s', o' := Next(c, s, e).s, Observe(c, s.a20, o, e);
    GoodParts(c, s', o');
    EventCourse(c, s, o, e, a, false);
    SettledIff(c, s', o', a);
    if CarefulEvent(c, s, e, a) {
      EventCourse(c, s, o, e, a, true);
      OneSidedCell(s'.m, o'.z[a], a);
      SoundIsSettled(CellOf(s'.m, [], o'.z[a], a));
    }
  }

  // ---- An adopted store ----

  /** What an adoption leaves of its byte. */
  lemma AdoptedCell(c: Config, m: Match, w: Write)
    requires c.ramBytes <= |m.ram| && Leads(m) && InRam(c, w.addr) && Adopts(c, m, w) && MatchWrite(c, m, w).ok
    ensures var r := MatchWrite(c, m, w).m;
            && m.dut == [] && r.dut == []
            && (Settled(CellOf(r, [], w.val, w.addr)) <==> LastOrSame(m, w))
  {
    hide MatchWrite, Adopts, Undone, Stream;
    LeadsOn(c, m, w);
    CompareByte(c, m, w, w.addr);
    assert m.dut + [DutEvent(w)] != m.dut;
    NothingWaits(MatchWrite(c, m, w).m, w.addr);
    var u := Undone(m.exp, w.addr);
    assert |u| > 1 ==> u[1..][|u| - 2] == u[|u| - 1];
  }

  lemma {:induction false} AdoptionAccepted(c: Config, m: Match, w: Write)
    requires c.ramBytes <= |m.ram| && Adopts(c, m, w)
    ensures MatchWrite(c, m, w).ok
    decreases |m.exp|
  {
    var exp := Advance(m.exp);
    var n := GroupLen(exp, exp[0].grp);
    if FirstPending(exp[..n], w.addr) == n {
      AdoptionAccepted(c, m.(exp := exp[n..]), w);
    }
  }

  /** After any run without a report or a careless adoption of its byte, x87
      stores adopted throughout, z486's write is adopted: its byte is sure to
      be the same on both sides once the run has gone on so and drained if and
      only if no later outstanding write of the byte leaves another value. */
  lemma AdoptionSafeIff(c: Config, s0: Machine, o0: Observed, evs: seq<Event>, phys: Word32, val: Byte)
    requires CleanRun(c, s0, o0, evs)
    requires var s := Run(c, s0, evs).s;
             var w := Write(PlatformPhys(s.a20, phys), val);
             && InRam(c, w.addr) && CarefulRun(c, s0, evs, w.addr) && Adopts(c, s.m, w)
             && Low(Unmatched(MatchWrite(c, s.m, w).m.exp))
    ensures var s, o := Run(c, s0, evs).s, ObserveAll(c, s0.a20, o0, evs);
            var w, e := Write(PlatformPhys(s.a20, phys), val), DutWrite(phys, val);
            && Next(c, s, e).Running?
            && |Observe(c, s.a20, o, e).z| == |Next(c, s, e).s.m.ram|
            && (LastOrSame(s.m, w)
                <==> AgreesWhenDrained(c, Next(c, s, e).s, Observe(c, s.a20, o, e), w.addr))
  {
    hide AgreesWhenDrained, Unmatched, Low, Run, ObserveAll, PoliteRun, CarefulRun, MatchWrite, Adopts, Settled, CellOf;
    hide LastOrSame, PlatformPhys, Leads;
    var s, o := Run(c, s0, evs).s, ObserveAll(c, s0.a20, o0, evs);
    var w, e := Write(PlatformPhys(s.a20, phys), val), DutWrite(phys, val);
    GoodStart(c, s0, o0);
    GoodRun(c, s0, o0, evs);
    GoodParts(c, s, o);
    AdoptionAccepted(c, s.m, w);
    AdoptedCell(c, s.m, w);
    EventSafeIff(c, s0, o0, evs, e, w.addr);
  }

  /** And if one does: z486 goes on to make that write, and the memories
      differ. */
  lemma CarelessAdoptionShows(c: Config, s: Machine, o: Observed, w: Write) returns (evs: seq<Event>)
    requires Good(c, s, o) && InRam(c, w.addr) && Adopts(c, s.m, w) && !LastOrSame(s.m, w)
    requires MatchWrite(c, s.m, w).ok && Low(Unmatched(MatchWrite(c, s.m, w).m.exp))
    ensures EndsUnequal(c, s.(m := MatchWrite(c, s.m, w).m), o.(z := Put(c, o.z, w)), evs, w.addr)
  {
    hide MatchWrite, Adopts, LastOrSame, Unmatched, Low, EndsUnequal, Settled;
    AdoptedCell(c, s.m, w);
    evs := CatchingUpUnequal(c, s.(m := MatchWrite(c, s.m, w).m), o.(z := Put(c, o.z, w)), w.addr);
  }
}
