/** Exactly when z486 may leave out a write that changes nothing, or make one
    that the reference does not make. */
module OmittedTheorems {
  import opened Platform
  import opened EventQueue
  import opened WriteMatcher
  import opened Outstanding
  import opened MatcherSoundness
  import opened CosimRun
  import opened RunSoundness
  import opened RunTheorems
  import opened MatcherCompleteness
  import opened OmittedWrites
  import opened OmittedRuns

  // ---- Counting ----

  /** z486's changing writes to byte a that were taken for repetitions. */
  ghost function LostAt(c: Config, cs: seq<Compared>, a: int): nat {
    if cs == [] then 0
    else
      (if c.ramBytes <= |cs[0].m.ram| && Lost(c, cs[0]) && cs[0].x.addr == a then 1 else 0) + LostAt(c, cs[1..], a)
  }

  /** Its repetitions that were taken for changing writes. */
  ghost function StolenAt(c: Config, cs: seq<Compared>, a: int): nat {
    if cs == [] then 0
    else
      (if c.ramBytes <= |cs[0].m.ram| && Stolen(c, cs[0]) && cs[0].x.addr == a then 1 else 0) + StolenAt(c, cs[1..], a)
  }

  /** By how many changing writes to byte a the reference is ahead. */
  ghost function Ahead(t: Labelled, a: int): int {
    |Owing(t.m.exp, a)| - |Owing(t.queue, a)|
  }

  ghost predicate Unmarked(ls: seq<Ev>) {
    forall i :: 0 <= i < |ls| ==> !ls[i].done
  }

  /** Labels match what is queued. */
  ghost predicate Tracked(t: Labelled, top: nat) {
    Ordered(t.m.exp, top) && Writes(t.m.dut) == Writes(t.queue)
  }

  lemma {:induction false} LostConcat(c: Config, p: seq<Compared>, q: seq<Compared>, a: int)
    ensures LostAt(c, p + q, a) == LostAt(c, p, a) + LostAt(c, q, a)
    ensures StolenAt(c, p + q, a) == StolenAt(c, p, a) + StolenAt(c, q, a)
  {
    hide Lost, Stolen;
    if p == [] {
      assert p + q == q;
    } else {
      assert (p + q)[1..] == p[1..] + q;
      LostConcat(c, p[1..], q, a);
    }
  }

  lemma OwingOne(x: Ev, a: int)
    ensures Owing([x], a) == if Changes(x) && x.addr == a then multiset{x.grp} else multiset{}
  {
    assert [x][1..] == [];
  }

  lemma LostOne(c: Config, d: Compared, a: int)
    requires c.ramBytes <= |d.m.ram|
    ensures LostAt(c, [d], a) == if Lost(c, d) && d.x.addr == a then 1 else 0
    ensures StolenAt(c, [d], a) == if Stolen(c, d) && d.x.addr == a then 1 else 0
  {
    hide Lost, Stolen;
    assert [d][1..] == [];
  }

  /** One comparison uses up one of z486's changing writes, and one of the
      reference's, unless something is lost or stolen. */
  lemma CountOne(c: Config, t: Labelled, x: Ev, top: nat, a: int)
    requires c.ramBytes <= |t.m.ram| && !c.lenient && Tracked(t, top) && !x.done
    requires MatchWrite(c, t.m, Of(x)).ok
    ensures Tracked(Compare(c, t, x), top)
    ensures var d := Compared(t.m, x);
            Ahead(Compare(c, t, x), a)
            == Ahead(t, a) - |Owing([x], a)| + LostAt(c, [d], a) - StolenAt(c, [d], a)
  {
    hide MatchWrite, Owing, Ordered, LostAt, StolenAt, Takes, Same, Todo;
    var d := Compared(t.m, x);
    var r := MatchWrite(c, t.m, Of(x)).m;
    ComparesInOrder(c, t.m, Of(x), top);
    ComparisonMoves(c, d, top);
    TakesIff(c, d, TakenBy(c, d));
    OwingOne(x, a);
    LostOne(c, d, a);
    OwingConcat(t.queue, [x], a);
    if r.dut != t.m.dut {
      WritesAppend(t.m.dut, DutEvent(Of(x)));
      WritesAppend(t.queue, x);
    }
  }

  lemma WritesAppend(q: seq<Ev>, e: Ev)
    ensures Writes(q + [e]) == Writes(q) + [Of(e)]
  {
  }

  lemma {:induction false} CountAll(c: Config, t: Labelled, xs: seq<Ev>, top: nat, a: int)
    requires c.ramBytes <= |t.m.ram| && !c.lenient && Tracked(t, top) && Unmarked(xs)
    requires CompareAll(c, t, xs).ok
    ensures var r := CompareAll(c, t, xs);
            && Tracked(r.t, top)
            && Ahead(r.t, a) == Ahead(t, a) - |Owing(xs, a)| + LostAt(c, r.cs, a) - StolenAt(c, r.cs, a)
    decreases xs
  {
    hide MatchWrite, Compare, Tracked, Ahead, LostAt, StolenAt, Owing;
    if xs == [] {
      CountNone(c, a);
    } else {
      var x, t1 := xs[0], Compare(c, t, xs[0]);
      CountOne(c, t, x, top, a);
      CountAll(c, t1, xs[1..], top, a);
      assert xs == [x] + xs[1..];
      OwingConcat([x], xs[1..], a);
      LostConcat(c, [Compared(t.m, x)], CompareAll(c, t1, xs[1..]).cs, a);
    }
  }

  lemma CountNone(c: Config, a: int)
    ensures Owing([], a) == multiset{} && LostAt(c, [], a) == 0 && StolenAt(c, [], a) == 0
  {
  }

  /** What is known of a run's trace when the run is accepted: no comparison
      was reported; the labels follow the queue; and for byte a the reference
      is ahead by what it stages, less what z486 does, but for the lost and
      the stolen. */
  ghost predicate Counted(c: Config, s: Machine, queue: seq<Ev>, future: seq<Ev>, evs: seq<Event>, a: int)
    requires Fits(c, s)
  {
    Run(c, s, evs).Running? ==>
      var t, r := Run(c, s, evs).s, CompareRun(c, s, queue, future, evs);
      && Tracked(Labelled(t.m, r.queue), t.ninsn)
      && Ahead(Labelled(t.m, r.queue), a)
         == Ahead(Labelled(s.m, queue), a) + |Owing(StagedBy(c, s.m.ram, s.a20, s.ninsn, evs), a)| - |Owing(future, a)|
            + LostAt(c, r.cs, a) - StolenAt(c, r.cs, a)
  }

  ghost predicate Labels(s: Machine, queue: seq<Ev>, future: seq<Ev>, evs: seq<Event>) {
    && Tracked(Labelled(s.m, queue), s.ninsn) && Unmarked(queue) && Unmarked(future)
    && Writes(future) == DutsOf(s.a20, evs)
  }

  lemma CompareUnmarked(c: Config, t: Labelled, x: Ev)
    requires c.ramBytes <= |t.m.ram| && Unmarked(t.queue) && !x.done
    ensures Unmarked(Compare(c, t, x).queue)
  {
    hide MatchWrite;
  }

  lemma {:induction false} CompareAllUnmarked(c: Config, t: Labelled, xs: seq<Ev>)
    requires c.ramBytes <= |t.m.ram| && Unmarked(t.queue) && Unmarked(xs)
    ensures Unmarked(CompareAll(c, t, xs).t.queue)
    decreases xs
  {
    hide MatchWrite, Compare;
    if xs != [] {
      CompareUnmarked(c, t, xs[0]);
      CompareAllUnmarked(c, Compare(c, t, xs[0]), xs[1..]);
    }
  }

  /** A step of the reference that is accepted. */
  lemma CountStep(c: Config, s: Machine, queue: seq<Ev>, future: seq<Ev>, evs: seq<Event>, a: int)
    requires Fits(c, s) && !c.lenient && evs != [] && evs[0].Step? && Labels(s, queue, future, evs)
    requires Next(c, s, evs[0]).Running?
    ensures var t := CompareAll(c, Labelled(Committed(c, s, evs[0].stores, evs[0].fpu), []), queue);
            var s' := Next(c, s, evs[0]).s;
            && s'.m == t.t.m && Labels(s', t.t.queue, future, evs[1..])
            && s'.m.ram == Staged(c, s, evs[0].stores, evs[0].fpu).ram && s'.a20 == s.a20 && s'.ninsn == s.ninsn + 1
            && Ahead(Labelled(s'.m, t.t.queue), a)
               == Ahead(Labelled(s.m, queue), a)
                  + |Owing(Tagged(Staged(c, s, evs[0].stores, evs[0].fpu).stage, s.ninsn + 1), a)|
                  + LostAt(c, t.cs, a) - StolenAt(c, t.cs, a)
  {
    hide StoreAll, MatchAll, MatchAllIo, CompareAll, LostAt, StolenAt, Ordered, Owing, Writes, Unmarked, DutsOf;
    var e := evs[0];
    var st, m := Staged(c, s, e.stores, e.fpu), Committed(c, s, e.stores, e.fpu);
    var r, io := StepParts(c, s, e, Next(c, s, e).s);
    var added := Tagged(st.stage, s.ninsn + 1);
    OrderedJoin(s.m.exp, added, s.ninsn);
    CompareAllMatches(c, Labelled(m, []), s.m.dut, queue);
    NothingMarked();
    CountAll(c, Labelled(m, []), queue, s.ninsn + 1, a);
    CompareAllUnmarked(c, Labelled(m, []), queue);
    OwingConcat(s.m.exp, added, a);
    CountNone(c, a);
    Unroll(s.a20, evs);
    ReplayRam(c, Labelled(m, []), queue, s.ninsn + 1);
  }

  lemma NothingMarked()
    ensures Unmarked([]) && Writes([]) == []
  {
  }

  lemma {:induction false} ReplayRam(c: Config, t: Labelled, xs: seq<Ev>, top: nat)
    requires c.ramBytes <= |t.m.ram| && !c.lenient && Ordered(t.m.exp, top)
    ensures CompareAll(c, t, xs).t.m.ram == t.m.ram
    decreases xs
  {
    hide MatchWrite, Ordered;
    if xs != [] {
      ComparesInOrder(c, t.m, Of(xs[0]), top);
      if MatchWrite(c, t.m, Of(xs[0])).ok {
        ReplayRam(c, Compare(c, t, xs[0]), xs[1..], top);
      }
    }
  }

  lemma CountDutWrite(c: Config, s: Machine, queue: seq<Ev>, future: seq<Ev>, evs: seq<Event>, a: int)
    requires Fits(c, s) && !c.lenient && evs != [] && evs[0].DutWrite? && Labels(s, queue, future, evs)
    requires Next(c, s, evs[0]).Running?
    ensures future != []
    ensures var d, t := Compared(s.m, future[0]), Compare(c, Labelled(s.m, queue), future[0]);
            var s' := Next(c, s, evs[0]).s;
            && s'.m == t.m && Labels(s', t.queue, future[1..], evs[1..])
            && s'.m.ram == s.m.ram && s'.a20 == s.a20 && s'.ninsn == s.ninsn
            && Ahead(Labelled(s'.m, t.queue), a) - |Owing(future[1..], a)|
               == Ahead(Labelled(s.m, queue), a) - |Owing(future, a)| + LostAt(c, [d], a) - StolenAt(c, [d], a)
  {
    hide MatchWrite, LostAt, StolenAt, Ordered, Owing, Lost, Stolen, Ahead, DutsOf, PlatformPhys;
    Unroll(s.a20, evs);
    var w := Write(PlatformPhys(s.a20, evs[0].phys), evs[0].val);
    assert Writes(future)[0] == w;
    var x, rest := future[0], future[1..];
    assert future == [x] + rest && Of(x) == w;
    assert Writes(rest) == Writes(future)[1..] == DutsOf(s.a20, evs[1..]);
    CountOne(c, Labelled(s.m, queue), x, s.ninsn, a);
    ComparesInOrder(c, s.m, w, s.ninsn);
    CompareUnmarked(c, Labelled(s.m, queue), x);
    OwingConcat([x], rest, a);
  }

  lemma {:induction false} CountRun(c: Config, s: Machine, queue: seq<Ev>, future: seq<Ev>, evs: seq<Event>, a: int)
    requires Fits(c, s) && !c.lenient && Labels(s, queue, future, evs)
    ensures Counted(c, s, queue, future, evs, a)
    decreases evs
  {
    hide Next, CompareAll, Compare, Tracked, Ahead, LostAt, StolenAt, Owing, Unmarked;
    if evs == [] {
      assert |future| == |Writes(future)| == 0;
      CountNone(c, a);
    } else if Next(c, s, evs[0]).Running? {
      var s' := Next(c, s, evs[0]).s;
      if evs[0].Step? {
        CountStep(c, s, queue, future, evs, a);
        var t := CompareAll(c, Labelled(Committed(c, s, evs[0].stores, evs[0].fpu), []), queue);
        CountRun(c, s', t.t.queue, future, evs[1..], a);
        LostConcat(c, t.cs, CompareRun(c, s', t.t.queue, future, evs[1..]).cs, a);
        var st := Staged(c, s, evs[0].stores, evs[0].fpu);
        OwingConcat(Tagged(st.stage, s.ninsn + 1), StagedBy(c, st.ram, s.a20, s.ninsn + 1, evs[1..]), a);
      } else if evs[0].DutWrite? {
        CountDutWrite(c, s, queue, future, evs, a);
        var t := Compare(c, Labelled(s.m, queue), future[0]);
        CountRun(c, s', t.queue, future[1..], evs[1..], a);
        LostConcat(c, [Compared(s.m, future[0])], CompareRun(c, s', t.queue, future[1..], evs[1..]).cs, a);
      } else {
        OtherLabels(c, s, queue, future, evs, a);
        CountRun(c, s', queue, future, evs[1..], a);
      }
    }
  }

  lemma OtherLabels(c: Config, s: Machine, queue: seq<Ev>, future: seq<Ev>, evs: seq<Event>, a: int)
    requires Fits(c, s) && evs != [] && !evs[0].Step? && !evs[0].DutWrite? && Labels(s, queue, future, evs)
    requires Next(c, s, evs[0]).Running?
    ensures var s' := Next(c, s, evs[0]).s;
            && Labels(s', queue, future, evs[1..]) && s'.m.exp == s.m.exp && s'.ninsn == s.ninsn
            && StagedBy(c, s.m.ram, s.a20, s.ninsn, evs) == StagedBy(c, s'.m.ram, s'.a20, s'.ninsn, evs[1..])
            && Ahead(Labelled(s'.m, queue), a) == Ahead(Labelled(s.m, queue), a)
  {
    hide PlatformPhys, StoreAll, MatchWrite, Tracked, Unmarked, Owing, Writes;
    Unroll(s.a20, evs);
    OtherTracked(c, s, queue, evs[0]);
  }

  lemma OtherTracked(c: Config, s: Machine, queue: seq<Ev>, e: Event)
    requires Fits(c, s) && !e.Step? && !e.DutWrite? && Next(c, s, e).Running?
    ensures var s' := Next(c, s, e).s;
            && s'.m.exp == s.m.exp && s'.m.dut == s.m.dut && s'.ninsn == s.ninsn
            && (Tracked(Labelled(s.m, queue), s.ninsn) ==> Tracked(Labelled(s'.m, queue), s'.ninsn))
  {
    hide PlatformPhys, StoreAll, MatchWrite, Ordered, Writes;
  }

  // ---- The theorems ----

  lemma SilentLike(p: seq<Ev>, q: seq<Ev>)
    requires OnlySilent(p) && forall a :: |Owing(p, a)| == |Owing(q, a)|
    ensures OnlySilent(q)
  {
    forall e | e in q
      ensures e.done || e.silent
    {
      if Changes(e) {
        var i :| 0 <= i < |q| && q[i] == e;
        OwingSilent(p, e.addr);
        assert |Owing(q, e.addr)| == |Owing(p, e.addr)| == 0;
        TodoFrom(q, i);
        OwingTodo(q, e.grp, e.addr);
      }
    }
  }

  lemma {:induction false} OwingSilent(q: seq<Ev>, a: int)
    requires OnlySilent(q)
    ensures Owing(q, a) == multiset{}
  {
    if q != [] {
      assert q[0] in q;
      OwingSilent(q[1..], a);
    }
  }

  /** A z486 that performs the reference's changing writes, and what it likes
      of others, from the reset. */
  ghost predicate Performing(c: Config, s: Machine, evs: seq<Event>, ls: seq<Ev>) {
    Fits(c, s) && !c.lenient && Idle(s) && Performs(c, s, evs, ls)
  }

  /** The run is accepted, and at its end nothing changing is outstanding. */
  ghost predicate AcceptedAndDrained(c: Config, s: Machine, evs: seq<Event>, ls: seq<Ev>)
    requires Fits(c, s)
  {
    Run(c, s, evs).Running? && Spent(Run(c, s, evs).s.m, CompareRun(c, s, [], ls, evs).queue)
  }

  lemma PerformingStarts(c: Config, s: Machine, evs: seq<Event>, ls: seq<Ev>)
    requires Performing(c, s, evs, ls)
    ensures Going(c, s, [], ls, evs) && Labels(s, [], ls, evs)
  {
    hide StagedBy, Todo;
    var staged := StagedBy(c, s.m.ram, s.a20, s.ninsn, evs);
    StagedLater(c, s.m.ram, s.a20, s.ninsn, evs);
    assert [] + ls == ls && Writes([]) == [];
    assert [] + DutOutsOf(evs) == DutOutsOf(evs) && [] + OutsOf(evs) == OutsOf(evs);
    forall g, a
      ensures Todo([], g, a) + Todo(staged, g, a) == Todo(ls, g, a)
    {
      NothingTodo(g, a);
    }
  }

  /** As many changing writes were lost as were stolen, byte by byte. */
  ghost predicate Even(c: Config, cs: seq<Compared>) {
    forall a :: LostAt(c, cs, a) == StolenAt(c, cs, a)
  }

  ghost predicate NoneStolen(c: Config, cs: seq<Compared>) {
    forall a :: StolenAt(c, cs, a) == 0
  }

  /** Such a run, if it is accepted, drains exactly if for every byte as many
      changing writes were lost as were stolen. */
  lemma DrainsIff(c: Config, s: Machine, evs: seq<Event>, ls: seq<Ev>)
    requires Performing(c, s, evs, ls) && Run(c, s, evs).Running?
    ensures var r := CompareRun(c, s, [], ls, evs);
            Spent(Run(c, s, evs).s.m, r.queue) <==> Even(c, r.cs)
  {
    hide Run, CompareRun, OnlySilent, StagedBy, Performs, Idle;
    var t, r := Run(c, s, evs).s, CompareRun(c, s, [], ls, evs);
    var p, q := t.m.exp, r.queue;
    if Spent(t.m, q) {
      forall a
        ensures LostAt(c, r.cs, a) == StolenAt(c, r.cs, a)
      {
        CountWhole(c, s, evs, ls, a);
        OwingSilent(p, a);
        OwingSilent(q, a);
      }
    }
    if Even(c, r.cs) {
      forall a
        ensures |Owing(p, a)| == |Owing(q, a)|
      {
        CountWhole(c, s, evs, ls, a);
        assert LostAt(c, r.cs, a) == StolenAt(c, r.cs, a);
      }
      LeadAtEnd(c, s, evs, ls);
      if OnlySilent(p) {
        SilentLike(p, q);
      } else {
        SilentLike(q, p);
      }
    }
  }

  lemma CountWhole(c: Config, s: Machine, evs: seq<Event>, ls: seq<Ev>, a: int)
    requires Performing(c, s, evs, ls) && Run(c, s, evs).Running?
    ensures var t, r := Run(c, s, evs).s, CompareRun(c, s, [], ls, evs);
            |Owing(t.m.exp, a)| - |Owing(r.queue, a)| == LostAt(c, r.cs, a) - StolenAt(c, r.cs, a)
  {
    hide Run, CompareRun, LostAt, StolenAt, Owing, Todo, StagedBy, Tracked;
    PerformingStarts(c, s, evs, ls);
    CountRun(c, s, [], ls, evs, a);
    var staged := StagedBy(c, s.m.ram, s.a20, s.ninsn, evs);
    forall g, b
      ensures Todo(ls, g, b) == Todo([], g, b) + Todo(staged, g, b)
    {
      NothingTodo(g, b);
    }
    OwingSame(ls, [], staged, a);
    CountNone(c, a);
  }

  /** One side's list of changing writes is empty at the end. */
  lemma LeadAtEnd(c: Config, s: Machine, evs: seq<Event>, ls: seq<Ev>)
    requires Performing(c, s, evs, ls) && Run(c, s, evs).Running?
    ensures var t, r := Run(c, s, evs).s, CompareRun(c, s, [], ls, evs);
            OnlySilent(t.m.exp) || OnlySilent(r.queue)
  {
    hide Run, CompareRun, Owing, LostAt, StolenAt, StagedBy;
    var t, r := Run(c, s, evs).s, CompareRun(c, s, [], ls, evs);
    PerformingStarts(c, s, evs, ls);
    CountRun(c, s, [], ls, evs, 0);
    OneSidedLead(c, s, evs);
    assert |r.queue| == |Writes(t.m.dut)|;
    if t.m.dut == [] {
      assert r.queue == [];
    } else {
      DoneSpent(t.m.exp);
    }
  }

  lemma {:induction false} AcceptedIsOk(c: Config, s: Machine, queue: seq<Ev>, future: seq<Ev>, evs: seq<Event>)
    requires Fits(c, s) && !c.lenient && Labels(s, queue, future, evs) && Run(c, s, evs).Running?
    ensures AllOk(c, CompareRun(c, s, queue, future, evs).cs)
    decreases evs
  {
    hide Next, CompareAll, Compare, Tracked, AllOk, Unmarked;
    if evs == [] {
      OkNone(c);
    } else {
      var s' := Next(c, s, evs[0]).s;
      if evs[0].Step? {
        CountStep(c, s, queue, future, evs, 0);
        StepOk(c, s, queue, future, evs);
        var t := CompareAll(c, Labelled(Committed(c, s, evs[0].stores, evs[0].fpu), []), queue);
        AcceptedIsOk(c, s', t.t.queue, future, evs[1..]);
        OkSplit(c, t.cs, CompareRun(c, s', t.t.queue, future, evs[1..]).cs);
      } else if evs[0].DutWrite? {
        CountDutWrite(c, s, queue, future, evs, 0);
        DutWriteOk(c, s, future, evs);
        var t := Compare(c, Labelled(s.m, queue), future[0]);
        AcceptedIsOk(c, s', t.queue, future[1..], evs[1..]);
        OkSplit(c, [Compared(s.m, future[0])], CompareRun(c, s', t.queue, future[1..], evs[1..]).cs);
      } else {
        OtherLabels(c, s, queue, future, evs, 0);
        AcceptedIsOk(c, s', queue, future, evs[1..]);
      }
    }
  }

  ghost predicate AllOk(c: Config, cs: seq<Compared>) {
    forall k :: 0 <= k < |cs| ==> c.ramBytes <= |cs[k].m.ram| && MatchWrite(c, cs[k].m, Of(cs[k].x)).ok
  }

  lemma OkNone(c: Config)
    ensures AllOk(c, [])
  {
  }

  lemma OkSplit(c: Config, p: seq<Compared>, q: seq<Compared>)
    ensures AllOk(c, p + q) <==> AllOk(c, p) && AllOk(c, q)
  {
    hide MatchWrite;
    assert forall k :: 0 <= k < |q| ==> (p + q)[|p| + k] == q[k];
    assert forall k :: 0 <= k < |p| ==> (p + q)[k] == p[k];
  }

  lemma {:induction false} ReplayOk(c: Config, t: Labelled, xs: seq<Ev>)
    requires c.ramBytes <= |t.m.ram| && CompareAll(c, t, xs).ok
    ensures AllOk(c, CompareAll(c, t, xs).cs)
    decreases xs
  {
    hide MatchWrite, Compare;
    if xs != [] {
      ReplayOk(c, Compare(c, t, xs[0]), xs[1..]);
      OkSplit(c, [Compared(t.m, xs[0])], CompareAll(c, Compare(c, t, xs[0]), xs[1..]).cs);
    }
  }

  lemma StepOk(c: Config, s: Machine, queue: seq<Ev>, future: seq<Ev>, evs: seq<Event>)
    requires Fits(c, s) && !c.lenient && evs != [] && evs[0].Step? && Labels(s, queue, future, evs)
    requires Next(c, s, evs[0]).Running?
    ensures AllOk(c, CompareAll(c, Labelled(Committed(c, s, evs[0].stores, evs[0].fpu), []), queue).cs)
  {
    hide StoreAll, MatchAll, MatchAllIo, CompareAll, Ordered, AllOk;
    var e := evs[0];
    var m := Committed(c, s, e.stores, e.fpu);
    var r, io := StepParts(c, s, e, Next(c, s, e).s);
    CompareAllMatches(c, Labelled(m, []), s.m.dut, queue);
    ReplayOk(c, Labelled(m, []), queue);
  }

  lemma DutWriteOk(c: Config, s: Machine, future: seq<Ev>, evs: seq<Event>)
    requires Fits(c, s) && evs != [] && evs[0].DutWrite? && Writes(future) == DutsOf(s.a20, evs)
    requires Next(c, s, evs[0]).Running?
    ensures future != [] && AllOk(c, [Compared(s.m, future[0])])
  {
    hide MatchWrite;
    assert |Writes(future)| > 0;
    assert Writes(future)[0] == Write(PlatformPhys(s.a20, evs[0].phys), evs[0].val);
  }

  /** The guard holds at every comparison exactly if the run is accepted and
      no comparison loses or steals a changing write. */
  lemma GuardIff(c: Config, s: Machine, evs: seq<Event>, ls: seq<Ev>)
    requires Performing(c, s, evs, ls)
    ensures var r := CompareRun(c, s, [], ls, evs);
            && (AllFine(c, r.cs) <==>
                  && Run(c, s, evs).Running?
                  && (forall k :: 0 <= k < |r.cs| ==> !Lost(c, r.cs[k]) && !Stolen(c, r.cs[k])))
            && (AllFine(c, r.cs) ==>
                  && AcceptedAndDrained(c, s, evs, ls)
                  && Run(c, s, evs).s.expIo == [] && Run(c, s, evs).s.dutIo == [])
  {
    hide Run, CompareRun, Fine, Lost, Stolen, StagedBy, MatchWrite;
    PerformingStarts(c, s, evs, ls);
    RunGoes(c, s, [], ls, evs);
    if Run(c, s, evs).Running? {
      AcceptedIsOk(c, s, [], ls, evs);
    }
  }

  lemma {:induction false} NoneCounts(c: Config, cs: seq<Compared>, a: int)
    requires forall k :: 0 <= k < |cs| ==> c.ramBytes <= |cs[k].m.ram|
    ensures (forall k :: 0 <= k < |cs| ==> !Lost(c, cs[k])) ==> LostAt(c, cs, a) == 0
    ensures (forall k :: 0 <= k < |cs| ==> !Stolen(c, cs[k])) ==> StolenAt(c, cs, a) == 0
  {
    hide Lost, Stolen;
    if cs != [] {
      NoneCounts(c, cs[1..], a);
    }
  }

  lemma {:induction false} OneCounts(c: Config, cs: seq<Compared>, k: nat)
    requires k < |cs| && c.ramBytes <= |cs[k].m.ram|
    ensures Lost(c, cs[k]) ==> LostAt(c, cs, cs[k].x.addr) > 0
    ensures Stolen(c, cs[k]) ==> StolenAt(c, cs, cs[k].x.addr) > 0
  {
    hide Lost, Stolen;
    if k > 0 {
      OneCounts(c, cs[1..], k - 1);
    }
  }

  /** The main result. The guard holds at every comparison exactly if the run
      is accepted and drains without a repetition taking a changing write's
      place; and for a z486 that repeats nothing, exactly if it is accepted
      and drains. */
  lemma OmissionsPassIff(c: Config, s: Machine, evs: seq<Event>, ls: seq<Ev>)
    requires Performing(c, s, evs, ls)
    ensures var r := CompareRun(c, s, [], ls, evs);
            && (AllFine(c, r.cs) <==> AcceptedAndDrained(c, s, evs, ls) && NoneStolen(c, r.cs))
            && ((forall x :: x in ls ==> !x.silent) ==> (AllFine(c, r.cs) <==> AcceptedAndDrained(c, s, evs, ls)))
  {
    hide Run, CompareRun, Fine, Lost, Stolen, StagedBy, Performs, Idle, AllFine;
    var r := CompareRun(c, s, [], ls, evs);
    GuardIff(c, s, evs, ls);
    if AllFine(c, r.cs) {
      forall a
        ensures StolenAt(c, r.cs, a) == 0
      {
        NoneCounts(c, r.cs, a);
      }
    }
    if forall x :: x in ls ==> !x.silent {
      forall a
        ensures StolenAt(c, r.cs, a) == 0
      {
        NothingRepeated(c, s, evs, ls, a);
      }
    }
    if AcceptedAndDrained(c, s, evs, ls) && NoneStolen(c, r.cs) {
      NothingWrong(c, s, evs, ls);
    }
  }

  lemma NothingWrong(c: Config, s: Machine, evs: seq<Event>, ls: seq<Ev>)
    requires Performing(c, s, evs, ls) && AcceptedAndDrained(c, s, evs, ls)
    requires NoneStolen(c, CompareRun(c, s, [], ls, evs).cs)
    ensures Run(c, s, evs).Running?
    ensures var r := CompareRun(c, s, [], ls, evs);
            forall k :: 0 <= k < |r.cs| ==> !Lost(c, r.cs[k]) && !Stolen(c, r.cs[k])
  {
    hide Run, CompareRun, Fine, Lost, Stolen, StagedBy, LostAt, StolenAt, Performs, Idle, Spent;
    var r := CompareRun(c, s, [], ls, evs);
    DrainsIff(c, s, evs, ls);
    forall k | 0 <= k < |r.cs|
      ensures !Lost(c, r.cs[k]) && !Stolen(c, r.cs[k])
    {
      OneCounts(c, r.cs, k);
      assert LostAt(c, r.cs, r.cs[k].x.addr) == StolenAt(c, r.cs, r.cs[k].x.addr) == 0;
    }
  }

  /** The writes compared are z486's. */
  lemma {:induction false} ComparedAll(c: Config, t: Labelled, xs: seq<Ev>)
    requires c.ramBytes <= |t.m.ram|
    ensures var r := CompareAll(c, t, xs);
            && (forall d :: d in r.cs ==> d.x in xs)
            && (forall x :: x in r.t.queue ==> x in t.queue || x in xs)
    decreases xs
  {
    hide MatchWrite;
    if xs != [] {
      ComparedAll(c, Compare(c, t, xs[0]), xs[1..]);
    }
  }

  lemma {:induction false} ComparedRun(c: Config, s: Machine, queue: seq<Ev>, future: seq<Ev>, evs: seq<Event>)
    requires Fits(c, s)
    ensures forall d :: d in CompareRun(c, s, queue, future, evs).cs ==> d.x in queue || d.x in future
    decreases evs
  {
    hide Next, CompareAll, Compare;
    if evs != [] {
      var next := Next(c, s, evs[0]);
      if evs[0].Step? {
        var t := CompareAll(c, Labelled(Committed(c, s, evs[0].stores, evs[0].fpu), []), queue);
        ComparedAll(c, Labelled(Committed(c, s, evs[0].stores, evs[0].fpu), []), queue);
        if next.Running? {
          ComparedRun(c, next.s, t.t.queue, future, evs[1..]);
        }
      } else if evs[0].DutWrite? {
        if future != [] && next.Running? {
          CompareQueue(c, Labelled(s.m, queue), future[0]);
          ComparedRun(c, next.s, Compare(c, Labelled(s.m, queue), future[0]).queue, future[1..], evs[1..]);
        }
      } else if next.Running? {
        ComparedRun(c, next.s, queue, future, evs[1..]);
      }
    }
  }

  lemma CompareQueue(c: Config, t: Labelled, x: Ev)
    requires c.ramBytes <= |t.m.ram|
    ensures forall y :: y in Compare(c, t, x).queue ==> y in t.queue || y == x
  {
    hide MatchWrite;
  }

  lemma NothingRepeated(c: Config, s: Machine, evs: seq<Event>, ls: seq<Ev>, a: int)
    requires Fits(c, s) && forall x :: x in ls ==> !x.silent
    ensures StolenAt(c, CompareRun(c, s, [], ls, evs).cs, a) == 0
  {
    hide CompareRun, MatchWrite, Takes, Lost;
    ComparedRun(c, s, [], ls, evs);
    NoneCounts(c, CompareRun(c, s, [], ls, evs).cs, a);
  }
}
