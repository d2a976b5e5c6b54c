/** What a run of the co-simulation that reports no divergence proves. */
module RunTheorems {
  import opened Platform
  import opened EventQueue
  import opened WriteMatcher
  import opened Outstanding
  import opened MatcherSoundness
  import opened CosimRun
  import opened RunSoundness

  // ---- The hypotheses ----

  /** The values still in flight for a byte, on whichever side is ahead. */
  ghost function InFlight(s: Machine, a: int): seq<Byte> {
    Values(Undone(s.m.exp, a)) + Stream(Writes(s.m.dut), a)
  }

  /** A bus master's write that what is in flight does not undo on one side
      only: nothing is in flight for the byte, or its last value is the one
      written. */
  ghost predicate Harmless(c: Config, s: Machine, phys: int, val: Byte) {
    InRam(c, phys) && InFlight(s, phys) != [] ==> InFlight(s, phys)[|InFlight(s, phys)| - 1] == val
  }

  function Poked(c: Config, s: Machine, phys: int, val: Byte): (r: Machine)
    requires Fits(c, s) && 0 <= phys
    ensures Fits(c, r)
  {
    s.(m := s.m.(ram := Poke(c, s.m.ram, phys, val)))
  }

  ghost predicate Polite(c: Config, s: Machine, e: Event) {
    && (e.Dma? ==> Harmless(c, s, e.phys, e.val))
    && (e.Walker? ==> Harmless(c, s, PlatformPhys(s.a20, e.phys), e.val))
  }

  ghost predicate PoliteRun(c: Config, s: Machine, evs: seq<Event>)
    requires Fits(c, s)
    decreases evs
  {
    evs != [] ==>
      && Polite(c, s, evs[0])
      && (Next(c, s, evs[0]).Running? ==> PoliteRun(c, Next(c, s, evs[0]).s, evs[1..]))
  }

  /** The machines at the reset: nothing in flight, equal memories. */
  ghost predicate Start(c: Config, s: Machine, o: Observed) {
    && Fits(c, s)
    && s.m.exp == [] && s.m.dut == [] && s.expIo == [] && s.dutIo == []
    && o == Observed(s.m.ram, [], [], [], [])
  }

  lemma StepParts(c: Config, s: Machine, e: Event, s': Machine) returns (r: Match, io: IoReply)
    requires Fits(c, s) && e.Step? && Next(c, s, e) == Running(s')
    ensures var st := Staged(c, s, e.stores, e.fpu);
            Commit(c, s.m.(ram := st.ram), st.stage, s.ninsn + 1) == Reply(r, true)
    ensures MatchAllIo(s.expIo + e.outs, [], s.dutIo) == io && io.ok
    ensures s' == Machine(r, io.expIo, io.dutIo, s.a20, s.ninsn + 1)
  {
    r, io := s'.m, MatchAllIo(s.expIo + e.outs, [], s.dutIo);
  }

  /** No x87 store of byte a is adopted under a later write of another value,
      by z486's write itself or as one that waited is compared. */
  ghost predicate CarefulEvent(c: Config, s: Machine, e: Event, a: int)
    requires Fits(c, s)
  {
    && (e.DutWrite? && PlatformPhys(s.a20, e.phys) == a ==> Careful(c, s.m, Write(a, e.val)))
    && (e.Step? ==> CarefulAll(c, Joined(c, s, e.stores, e.fpu), s.m.dut, a))
  }

  ghost predicate CarefulRun(c: Config, s: Machine, evs: seq<Event>, a: int)
    requires Fits(c, s)
    decreases evs
  {
    evs != [] ==>
      && CarefulEvent(c, s, evs[0], a)
      && (Next(c, s, evs[0]).Running? ==> CarefulRun(c, Next(c, s, evs[0]).s, evs[1..], a))
  }

  lemma {:induction false} StrictAdoptsNothing(c: Config, m: Match, w: Write)
    requires c.ramBytes <= |m.ram| && !c.lenient
    ensures !Adopts(c, m, w)
    decreases |m.exp|
  {
    var exp := Advance(m.exp);
    if exp != [] {
      var n := GroupLen(exp, exp[0].grp);
      if FirstPending(exp[..n], w.addr) == n {
        StrictAdoptsNothing(c, m.(exp := exp[n..]), w);
      }
    }
  }

  lemma {:induction false} StrictIsCarefulAll(c: Config, m: Match, ds: seq<Ev>, a: int)
    requires c.ramBytes <= |m.ram| && !c.lenient
    ensures CarefulAll(c, m, ds, a)
    decreases ds
  {
    hide MatchWrite, Adopts;
    if ds != [] {
      var w := Write(ds[0].addr, ds[0].val);
      StrictAdoptsNothing(c, m, w);
      StrictIsCarefulAll(c, MatchWrite(c, m, w).m, ds[1..], a);
    }
  }

  /** Where x87 stores are checked as others are, every run is careful. */
  lemma {:induction false} StrictIsCareful(c: Config, s: Machine, evs: seq<Event>, a: int)
    requires Fits(c, s) && !c.lenient
    ensures CarefulRun(c, s, evs, a)
    decreases evs
  {
    hide MatchWrite, Adopts, CarefulAll, Next, Joined;
    if evs != [] {
      var e := evs[0];
      if e.DutWrite? {
        StrictAdoptsNothing(c, s.m, Write(a, e.val));
      } else if e.Step? {
        StrictIsCarefulAll(c, Joined(c, s, e.stores, e.fpu), s.m.dut, a);
      }
      if Next(c, s, e).Running? {
        StrictIsCareful(c, Next(c, s, e).s, evs[1..], a);
      }
    }
  }

  /** A run from the reset, nothing reported, in which the other bus masters
      behave. */
  ghost predicate CleanRun(c: Config, s: Machine, o: Observed, evs: seq<Event>) {
    Start(c, s, o) && PoliteRun(c, s, evs) && Run(c, s, evs).Running?
  }

  // ---- What every event keeps ----

  ghost predicate Good(c: Config, s: Machine, o: Observed) {
    Fits(c, s) && |o.z| == |s.m.ram| && Leads(s.m) && SilentInRam(c, s.m.exp) && IoInv(s, o)
  }

  lemma DutOutIo(s: Machine, o: Observed, w: Write)
    requires IoInv(s, o) && MatchIo(s.expIo, s.dutIo, w).ok
    ensures var r := MatchIo(s.expIo, s.dutIo, w);
            && o.refOut + r.dutIo == (o.dutOut + [w]) + r.expIo
            && (r.expIo == [] || r.dutIo == [])
  {
    IoOne(s.expIo, s.dutIo, w);
    var r := MatchIo(s.expIo, s.dutIo, w);
    if s.expIo == [] {
      assert o.refOut + (s.dutIo + [w]) == (o.refOut + s.dutIo) + [w];
      assert o.dutOut + [] == o.dutOut;
    } else {
      assert o.refOut + [] == o.refOut;
      assert o.dutOut + ([w] + r.expIo) == (o.dutOut + [w]) + r.expIo;
    }
  }

  lemma {:induction false} ReplayLeads(c: Config, m: Match, ds: seq<Ev>)
    requires c.ramBytes <= |m.ram| && Leads(m) && MatchAll(c, m, ds).ok
    ensures Leads(MatchAll(c, m, ds).m)
    decreases ds
  {
    hide MatchWrite, Leads;
    if ds != [] {
      var w := Write(ds[0].addr, ds[0].val);
      LeadsOn(c, m, w);
      ReplayLeads(c, MatchWrite(c, m, w).m, ds[1..]);
    }
  }

  lemma GoodNext(c: Config, s: Machine, o: Observed, e: Event)
    requires Good(c, s, o) && Next(c, s, e).Running?
    ensures Good(c, Next(c, s, e).s, Observe(c, s.a20, o, e))
  {
    hide MatchWrite, MatchAll, MatchIo, MatchAllIo, StoreAll, SilentInRam, PlatformPhys, Tagged;
    match e
    case Step(stores, outs, fpu) =>
      var m := Joined(c, s, stores, fpu);
      JoinedSilent(c, s, stores, fpu);
      ReplaySilent(c, m, s.m.dut);
      ReplayLeads(c, m, s.m.dut);
      StepIo(s, o, outs);
    case DutWrite(phys, val) =>
      var w := Write(PlatformPhys(s.a20, phys), val);
      CompareQueues(c, s.m, w);
      LeadsOn(c, s.m, w);
    case DutOut(port, val) => DutOutIo(s, o, Write(port, val));
    case _ =>
  }

  lemma GoodStart(c: Config, s: Machine, o: Observed)
    requires Start(c, s, o)
    ensures Good(c, s, o)
  {
  }

  lemma {:induction false} GoodRun(c: Config, s: Machine, o: Observed, evs: seq<Event>)
    requires Good(c, s, o) && Run(c, s, evs).Running?
    ensures Good(c, Run(c, s, evs).s, ObserveAll(c, s.a20, o, evs))
    decreases evs
  {
    hide Good, Next, Observe;
    if evs != [] {
      GoodParts(c, s, o);
      GoodNext(c, s, o, evs[0]);
      NextLine(c, s, evs[0]);
      GoodRun(c, Next(c, s, evs[0]).s, Observe(c, s.a20, o, evs[0]), evs[1..]);
    }
  }

  lemma GoodParts(c: Config, s: Machine, o: Observed)
    requires Good(c, s, o)
    ensures Fits(c, s) && |o.z| == |s.m.ram| && c.ramBytes <= |o.z| && Leads(s.m)
  {
  }

  lemma NextLine(c: Config, s: Machine, e: Event)
    requires Fits(c, s) && Next(c, s, e).Running?
    ensures Next(c, s, e).s.a20 == if e.SetA20? then e.on else s.a20
  {
  }

  // ---- A byte of RAM through a run ----

  lemma WriteArrives(c: Config, s: Machine, w: Write, z: Byte, a: nat)
    requires Fits(c, s) && InRam(c, a) && Sound(CellOf(s.m, [], z, a))
    ensures Sound(CellOf(s.m, [DutEvent(w)], if w.addr == a then w.val else z, a))
  {
    hide Undone, Stream;
    var v := Stream(Writes(s.m.dut), a);
    assert Writes([DutEvent(w)]) == [w] && Writes([]) == [] && Writes(s.m.dut) + [] == Writes(s.m.dut);
    StreamAppend(Writes(s.m.dut), w, a);
  }

  lemma OneCompared(c: Config, m: Match, w: Write, a: int)
    requires c.ramBytes <= |m.ram|
    ensures MatchAll(c, m, [DutEvent(w)]) == MatchWrite(c, m, w)
    ensures CarefulAll(c, m, [DutEvent(w)], a) <==> (w.addr == a ==> Careful(c, m, w))
  {
    hide MatchWrite, Careful;
    assert [DutEvent(w)][1..] == [];
  }

  lemma SoundPoked(x: Cell, val: Byte)
    requires Sound(x) && (x.u != [] ==> x.u[|x.u| - 1].val == val) && (x.v != [] ==> x.v[|x.v| - 1] == val)
    ensures Sound(x.(r := val, z := val))
  {
    if x.u != [] {
      LastIsTrailing(x.u, x.r);
    }
  }

  lemma PokeSound(c: Config, s: Machine, phys: int, val: Byte, z: Byte, a: nat)
    requires Fits(c, s) && Leads(s.m) && InRam(c, a) && 0 <= phys && Harmless(c, s, phys, val)
    requires Sound(CellOf(s.m, [], z, a))
    ensures Sound(CellOf(Poked(c, s, phys, val).m, [], if phys == a then val else z, a))
  {
    hide Sound, Undone, Stream;
    var x := CellOf(s.m, [], z, a);
    InFlightIs(s, a);
    if phys == a {
      SoundPoked(x, val);
    }
  }

  /** At most one side has writes of a byte in flight. */
  lemma InFlightIs(s: Machine, a: int)
    requires Leads(s.m)
    ensures var u, v := Undone(s.m.exp, a), Stream(Writes(s.m.dut) + Writes([]), a);
            && v == Stream(Writes(s.m.dut), a) && (u == [] || v == [])
            && InFlight(s, a) == (if v == [] then Values(u) else v)
  {
    assert Writes([]) == [] && Writes(s.m.dut) + [] == Writes(s.m.dut);
    if s.m.dut != [] {
      AllDoneUndone(s.m.exp, a);
    }
    assert Values([]) == [] && [] + Stream(Writes(s.m.dut), a) == Stream(Writes(s.m.dut), a);
    assert Values(Undone(s.m.exp, a)) + [] == Values(Undone(s.m.exp, a));
  }

  /** One event and one byte: a careful one keeps the byte on course, another
      loosely so. */
  lemma EventCourse(c: Config, s: Machine, o: Observed, e: Event, a: nat, careful: bool)
    requires Good(c, s, o) && InRam(c, a) && Sound(CellOf(s.m, [], o.z[a], a))
    requires Polite(c, s, e) && (careful ==> CarefulEvent(c, s, e, a)) && Next(c, s, e).Running?
    ensures OnCourse(CellOf(Next(c, s, e).s.m, [], Observe(c, s.a20, o, e).z[a], a), careful)
  {
    hide MatchWrite, MatchAll, MatchIo, MatchAllIo, StoreAll, Tagged, Sound, Loose, Undone, Stream, CarefulAll, Careful;
    hide Writes, SilentInRam, PlatformPhys, Harmless, Leads;
    match e
    case Step(stores, outs, fpu) =>
      JoinedSound(c, s, stores, fpu, o.z[a], a);
      OnCourseAnyway(CellOf(Joined(c, s, stores, fpu), s.m.dut, o.z[a], a), careful);
      JoinedLeads(c, s, stores, fpu);
      ReplayCourse(c, Joined(c, s, stores, fpu), s.m.dut, o.z[a], a, careful);
    case DutWrite(phys, val) =>
      var w := Write(PlatformPhys(s.a20, phys), val);
      WriteArrives(c, s, w, o.z[a], a);
      OnCourseAnyway(CellOf(s.m, [DutEvent(w)], if w.addr == a then val else o.z[a], a), careful);
      OneCompared(c, s.m, w, a);
      ReplayCourse(c, s.m, [DutEvent(w)], if w.addr == a then val else o.z[a], a, careful);
    case DutOut(port, val) => OnCourseAnyway(CellOf(s.m, [], o.z[a], a), careful);
    case Dma(phys, val) =>
      PokeSound(c, s, phys, val, o.z[a], a);
      OnCourseAnyway(CellOf(Poked(c, s, phys, val).m, [], if phys == a then val else o.z[a], a), careful);
    case Walker(phys, val) =>
      var p := PlatformPhys(s.a20, phys);
      PokeSound(c, s, p, val, o.z[a], a);
      OnCourseAnyway(CellOf(Poked(c, s, p, val).m, [], if p == a then val else o.z[a], a), careful);
    case SetA20(_) => OnCourseAnyway(CellOf(s.m, [], o.z[a], a), careful);
  }

  lemma JoinedLeads(c: Config, s: Machine, stores: seq<Write>, fpu: bool)
    requires Fits(c, s)
    ensures Leads(Joined(c, s, stores, fpu)) && c.ramBytes <= |Joined(c, s, stores, fpu).ram|
  {
    hide StoreAll, Tagged;
  }

  lemma OnCourseAnyway(x: Cell, careful: bool)
    requires Sound(x)
    ensures OnCourse(x, careful)
  {
    hide Trailing;
    SoundIsSettled(x);
  }

  lemma StartSound(c: Config, s: Machine, o: Observed, a: nat)
    requires Start(c, s, o) && InRam(c, a)
    ensures Sound(CellOf(s.m, [], o.z[a], a))
  {
    assert Writes([]) + Writes([]) == [];
  }

  lemma {:induction false} SoundRun(c: Config, s: Machine, o: Observed, evs: seq<Event>, a: nat)
    requires Good(c, s, o) && InRam(c, a) && Sound(CellOf(s.m, [], o.z[a], a))
    requires PoliteRun(c, s, evs) && CarefulRun(c, s, evs, a) && Run(c, s, evs).Running?
    ensures Good(c, Run(c, s, evs).s, ObserveAll(c, s.a20, o, evs))
    ensures Sound(CellOf(Run(c, s, evs).s.m, [], ObserveAll(c, s.a20, o, evs).z[a], a))
    decreases evs
  {
    hide Good, Next, Observe, Sound, Polite, CarefulEvent, CellOf;
    GoodParts(c, s, o);
    if evs != [] {
      GoodNext(c, s, o, evs[0]);
      EventCourse(c, s, o, evs[0], a, true);
      NextLine(c, s, evs[0]);
      SoundRun(c, Next(c, s, evs[0]).s, Observe(c, s.a20, o, evs[0]), evs[1..], a);
    }
  }

  /** Soundness. After any error-free run, a RAM byte none of whose x87 stores
      was adopted carelessly, for which no changing reference write is
      outstanding and no z486 write is queued, has the same value in z486's
      memory and in the reference's RAM. */
  lemma BytesAgree(c: Config, s: Machine, o: Observed, evs: seq<Event>, a: int)
    requires CleanRun(c, s, o, evs) && InRam(c, a) && CarefulRun(c, s, evs, a)
    requires var t := Run(c, s, evs).s;
             AllSilent(Undone(t.m.exp, a)) && Stream(Writes(t.m.dut), a) == []
    ensures ObserveAll(c, s.a20, o, evs).z[a] == Run(c, s, evs).s.m.ram[a]
  {
    hide Run, ObserveAll, PoliteRun, CarefulRun;
    GoodStart(c, s, o);
    StartSound(c, s, o, a);
    SoundRun(c, s, o, evs, a);
    InFlightIs(Run(c, s, evs).s, a);
  }

  // ---- Bytes that no CPU writes ----

  lemma {:induction false} MatchWriteOutside(c: Config, m: Match, w: Write, a: nat)
    requires c.ramBytes <= |m.ram| && a < |m.ram| && !InRam(c, a)
    ensures MatchWrite(c, m, w).m.ram[a] == m.ram[a]
    decreases |m.exp|
  {
    var exp := Advance(m.exp);
    if exp != [] {
      var n := GroupLen(exp, exp[0].grp);
      var passed := FirstPending(exp[..n], w.addr) == n && !(InRam(c, w.addr) && m.ram[w.addr] == w.val);
      if passed {
        MatchWriteOutside(c, m.(exp := exp[n..]), w, a);
      }
    }
  }

  lemma {:induction false} MatchAllOutside(c: Config, m: Match, ds: seq<Ev>, a: nat)
    requires c.ramBytes <= |m.ram| && a < |m.ram| && !InRam(c, a)
    ensures MatchAll(c, m, ds).m.ram[a] == m.ram[a]
    decreases ds
  {
    hide MatchWrite, InRam;
    if ds != [] {
      var w := Write(ds[0].addr, ds[0].val);
      MatchWriteOutside(c, m, w, a);
      MatchAllOutside(c, MatchWrite(c, m, w).m, ds[1..], a);
    }
  }

  lemma {:induction false} StoreAllOutside(c: Config, s: Stored, ws: seq<Write>, fpu: bool, a: nat)
    requires 0 < |s.ram| && c.ramBytes <= |s.ram| && a < |s.ram| && !InRam(c, a)
    ensures StoreAll(c, s, ws, fpu).ram[a] == s.ram[a]
    decreases ws
  {
    if ws != [] {
      if InRam(c, ws[0].addr) {
        IndexInRam(s.ram, ws[0].addr);
      }
      StoreAllOutside(c, StoreByte(c, s, ws[0].addr, ws[0].val, fpu), ws[1..], fpu, a);
    }
  }

  /** A device's or a protected byte in memory changes only by another bus
      master's write, and then alike on both sides. */
  lemma NextOutside(c: Config, s: Machine, o: Observed, e: Event, a: nat)
    requires Fits(c, s) && |o.z| == |s.m.ram| && a < |o.z| && !InRam(c, a) && o.z[a] == s.m.ram[a]
    requires Next(c, s, e).Running?
    ensures Observe(c, s.a20, o, e).z[a] == Next(c, s, e).s.m.ram[a]
  {
    hide MatchWrite, MatchAll, StoreAll, MatchAllIo, PlatformPhys, InRam;
    match e
    case Step(stores, outs, fpu) =>
      var r, io := StepParts(c, s, e, Next(c, s, e).s);
      var st := Staged(c, s, stores, fpu);
      StoreAllOutside(c, Stored(s.m.ram, []), stores, fpu, a);
      MatchAllOutside(c, Match(s.m.exp + Tagged(st.stage, s.ninsn + 1), [], st.ram), s.m.dut, a);
    case DutWrite(phys, val) =>
      MatchWriteOutside(c, s.m, Write(PlatformPhys(s.a20, phys), val), a);
    case _ =>
  }

  lemma {:induction false} RunOutside(c: Config, s: Machine, o: Observed, evs: seq<Event>, a: nat)
    requires Fits(c, s) && |o.z| == |s.m.ram| && a < |o.z| && !InRam(c, a) && o.z[a] == s.m.ram[a]
    requires Run(c, s, evs).Running?
    ensures ObserveAll(c, s.a20, o, evs).z[a] == Run(c, s, evs).s.m.ram[a]
    decreases evs
  {
    hide Next, Observe, InRam;
    if evs != [] {
      NextOutside(c, s, o, evs[0], a);
      NextLine(c, s, evs[0]);
      RunOutside(c, Next(c, s, evs[0]).s, Observe(c, s.a20, o, evs[0]), evs[1..], a);
    }
  }

  // ---- A device's byte through a run ----

  /** Which of a byte's stores by the reference are x87 stores, in order. */
  ghost function X87Marks(evs: seq<Event>, a: int): seq<bool>
    decreases evs
  {
    if evs == [] then []
    else
      (if evs[0].Step? then seq(|Stream(evs[0].stores, a)|, _ => evs[0].fpu) else []) + X87Marks(evs[1..], a)
  }

  ghost function TrafficAt(s: Machine, o: Observed, x87: seq<bool>, a: int): Traffic {
    TrafficOf(s.m, [], Stream(o.refW, a), x87, Stream(o.dutW, a), a)
  }

  lemma AgreedArrival(c: Config, m: Match, w: Write, ref: seq<Byte>, x87: seq<bool>, ws: seq<Write>, a: int)
    requires Agreed(c, TrafficOf(m, [], ref, x87, Stream(ws, a), a))
    ensures Agreed(c, TrafficOf(m, [DutEvent(w)], ref, x87, Stream(ws + [w], a), a))
  {
    hide Undone, Stream;
    assert Writes([DutEvent(w)]) == [w] && Writes([]) == [] && Writes(m.dut) + [] == Writes(m.dut);
    StreamAppend(Writes(m.dut), w, a);
    StreamAppend(ws, w, a);
    var t := TrafficOf(m, [], ref, x87, Stream(ws, a), a);
    var n := |t.ref| - |t.u|;
    assert (t.dut + [w.val])[n..] == t.dut[n..] + [w.val];
  }

  lemma EventTraffic(c: Config, s: Machine, o: Observed, x87: seq<bool>, e: Event, a: int)
    requires Good(c, s, o) && !InRam(c, a) && Agreed(c, TrafficAt(s, o, x87, a)) && Next(c, s, e).Running?
    ensures var added := if e.Step? then seq(|Stream(e.stores, a)|, _ => e.fpu) else [];
            Agreed(c, TrafficAt(Next(c, s, e).s, Observe(c, s.a20, o, e), x87 + added, a))
  {
    hide MatchWrite, MatchAll, MatchIo, MatchAllIo, StoreAll, Tagged, Agreed, Undone, Stream, Writes;
    hide SilentInRam, PlatformPhys, Leads;
    assert x87 + [] == x87;
    var ref, dut := Stream(o.refW, a), Stream(o.dutW, a);
    match e
    case Step(stores, outs, fpu) =>
      JoinedTraffic(c, s, stores, fpu, ref, x87, dut, a);
      JoinedLeads(c, s, stores, fpu);
      JoinedSilent(c, s, stores, fpu);
      StreamConcat(o.refW, stores, a);
      var added := Stream(stores, a);
      ReplayTraffic(c, Joined(c, s, stores, fpu), s.m.dut, ref + added, x87 + seq(|added|, _ => fpu), dut, a);
    case DutWrite(phys, val) =>
      var w := Write(PlatformPhys(s.a20, phys), val);
      AgreedArrival(c, s.m, w, ref, x87, o.dutW, a);
      OneCompared(c, s.m, w, a);
      ReplayTraffic(c, s.m, [DutEvent(w)], ref, x87, Stream(o.dutW + [w], a), a);
    case _ =>
  }

  lemma {:induction false} TrafficRun(c: Config, s: Machine, o: Observed, x87: seq<bool>, evs: seq<Event>, a: int)
    requires Good(c, s, o) && !InRam(c, a) && Agreed(c, TrafficAt(s, o, x87, a)) && Run(c, s, evs).Running?
    ensures Agreed(c, TrafficAt(Run(c, s, evs).s, ObserveAll(c, s.a20, o, evs), x87 + X87Marks(evs, a), a))
    decreases evs
  {
    hide Good, Next, Observe, Agreed, TrafficAt;
    GoodParts(c, s, o);
    if evs == [] {
      assert x87 + [] == x87;
    } else {
      var e := evs[0];
      var added := if e.Step? then seq(|Stream(e.stores, a)|, _ => e.fpu) else [];
      EventTraffic(c, s, o, x87, e, a);
      GoodNext(c, s, o, e);
      NextLine(c, s, e);
      TrafficRun(c, Next(c, s, e).s, Observe(c, s.a20, o, e), x87 + added, evs[1..], a);
      assert x87 + added + X87Marks(evs[1..], a) == x87 + (added + X87Marks(evs[1..], a));
    }
  }

  /** After any error-free run, the two sides' writes to one device (or
      write-protected) byte are the same sequence, but for the reference
      writes outstanding or the z486 writes queued at its end, and for the
      values of x87 stores where those are adopted. */
  lemma DeviceStreamsAgree(c: Config, s: Machine, o: Observed, evs: seq<Event>, a: int)
    requires CleanRun(c, s, o, evs) && !InRam(c, a)
    ensures var t, o' := Run(c, s, evs).s, ObserveAll(c, s.a20, o, evs);
            var ref := Stream(o'.refW, a) + Stream(Writes(t.m.dut), a);
            var dut := Stream(o'.dutW, a) + Values(Undone(t.m.exp, a));
            && |ref| == |dut| && |X87Marks(evs, a)| == |Stream(o'.refW, a)|
            && (forall k :: 0 <= k < |ref| && ref[k] != dut[k] ==>
                  c.lenient && k < |X87Marks(evs, a)| && X87Marks(evs, a)[k])
            && (!c.lenient ==> ref == dut)
  {
    hide Run, ObserveAll, PoliteRun;
    var t, o' := Run(c, s, evs).s, ObserveAll(c, s.a20, o, evs);
    GoodStart(c, s, o);
    assert Writes([]) + Writes([]) == [] && [] + X87Marks(evs, a) == X87Marks(evs, a);
    assert Agreed(c, TrafficAt(s, o, [], a));
    TrafficRun(c, s, o, [], evs, a);
    GoodRun(c, s, o, evs);
    GoodParts(c, t, o');
    InFlightIs(t, a);
    AgreedStreams(c, TrafficAt(t, o', X87Marks(evs, a), a));
  }

  lemma AgreedStreams(c: Config, t: Traffic)
    requires Agreed(c, t) && (t.u == [] || t.v == [])
    ensures var ref, dut := t.ref + t.v, t.dut + Values(t.u);
            && |ref| == |dut| && |t.x87| == |t.ref|
            && (forall k :: 0 <= k < |ref| && ref[k] != dut[k] ==> c.lenient && k < |t.x87| && t.x87[k])
            && (!c.lenient ==> ref == dut)
  {
    var ref, dut, n := t.ref + t.v, t.dut + Values(t.u), |t.ref| - |t.u|;
    hide Values;
    var p, q, x := t.ref[..n], t.dut[..n], Values(t.u) + t.v;
    assert t.ref == p + t.ref[n..] && t.dut == q + t.dut[n..];
    Regroup(p, Values(t.u), t.v);
    Regroup(q, t.v, Values(t.u));
    assert x == t.v + Values(t.u) by { NoneOrNone(t); }
    assert ref == p + x && dut == q + x;
    if !c.lenient {
      assert p == q;
    }
  }

  lemma Regroup<T>(a: seq<T>, b: seq<T>, c: seq<T>)
    ensures (a + b) + c == a + (b + c)
  {
  }

  lemma NoneOrNone(t: Traffic)
    requires t.u == [] || t.v == []
    ensures Values(t.u) + t.v == t.v + Values(t.u)
  {
  }

  /** After any error-free run the outputs are one sequence, but for what is
      expected or ahead. */
  lemma OutputsAgree(c: Config, s: Machine, o: Observed, evs: seq<Event>)
    requires CleanRun(c, s, o, evs)
    ensures var t, o' := Run(c, s, evs).s, ObserveAll(c, s.a20, o, evs);
            o'.refOut + t.dutIo == o'.dutOut + t.expIo
  {
    GoodStart(c, s, o);
    GoodRun(c, s, o, evs);
  }

  /** No divergence and drained queues: the memories are equal, byte by byte,
      if no adoption was careless; both sides wrote the same to every device,
      adopted values aside, and output the same. */
  lemma DrainedRunsAgree(c: Config, s: Machine, o: Observed, evs: seq<Event>)
    requires CleanRun(c, s, o, evs) && Drained(Run(c, s, evs).s)
    requires forall a :: InRam(c, a) ==> CarefulRun(c, s, evs, a)
    ensures var t, o' := Run(c, s, evs).s, ObserveAll(c, s.a20, o, evs);
            && o'.z == t.m.ram
            && (forall a :: !InRam(c, a) ==>
                  && |Stream(o'.refW, a)| == |Stream(o'.dutW, a)| == |X87Marks(evs, a)|
                  && (forall k :: 0 <= k < |X87Marks(evs, a)| && !(c.lenient && X87Marks(evs, a)[k]) ==>
                        Stream(o'.refW, a)[k] == Stream(o'.dutW, a)[k]))
            && o'.refOut == o'.dutOut
  {
    hide CarefulRun, X87Marks, Run, ObserveAll, PoliteRun;
    var t, o' := Run(c, s, evs).s, ObserveAll(c, s.a20, o, evs);
    GoodStart(c, s, o);
    GoodRun(c, s, o, evs);
    forall a | 0 <= a < |o'.z|
      ensures o'.z[a] == t.m.ram[a]
    {
      if InRam(c, a) {
        NothingInFlight(t.m, a);
        BytesAgree(c, s, o, evs, a);
      } else {
        RunOutside(c, s, o, evs, a);
      }
    }
    forall a | !InRam(c, a)
      ensures |Stream(o'.refW, a)| == |Stream(o'.dutW, a)| == |X87Marks(evs, a)|
      ensures forall k :: 0 <= k < |X87Marks(evs, a)| && !(c.lenient && X87Marks(evs, a)[k]) ==>
                Stream(o'.refW, a)[k] == Stream(o'.dutW, a)[k]
    {
      NothingInFlight(t.m, a);
      DeviceStreamsAgree(c, s, o, evs, a);
      assert Stream(o'.refW, a) + [] == Stream(o'.refW, a) && Stream(o'.dutW, a) + [] == Stream(o'.dutW, a);
    }
    OutputsAgree(c, s, o, evs);
    assert o'.refOut + [] == o'.refOut && o'.dutOut + [] == o'.dutOut;
  }

  lemma NothingInFlight(m: Match, a: int)
    requires AllDone(m.exp) && m.dut == []
    ensures Undone(m.exp, a) == [] && AllSilent(Undone(m.exp, a)) && Values(Undone(m.exp, a)) == []
    ensures Stream(Writes(m.dut), a) == []
  {
    AllDoneUndone(m.exp, a);
  }

  lemma {:induction false} PutAllAt(c: Config, z: seq<Byte>, ds: seq<Ev>, a: int)
    requires c.ramBytes <= |z| && 0 <= a < |z|
    ensures var v := Stream(Writes(ds), a);
            PutAll(c, z, ds)[a] == if InRam(c, a) && v != [] then v[|v| - 1] else z[a]
    decreases ds
  {
    if ds == [] {
      assert Writes(ds) == [];
    } else {
      var w := Write(ds[0].addr, ds[0].val);
      PutAllAt(c, Put(c, z, w), ds[1..], a);
      assert Writes(ds) == [w] + Writes(ds[1..]);
      StreamConcat([w], Writes(ds[1..]), a);
      StreamAppend([], w, a);
    }
  }

  // ---- One-sided lead ----

  ghost predicate OneSided(s: Machine) {
    && Leads(s.m)
    && (s.dutIo == [] || s.expIo == [])
  }

  lemma {:induction false} MatchWriteLead(c: Config, m: Match, w: Write)
    requires c.ramBytes <= |m.ram| && MatchWrite(c, m, w).ok
    ensures var r := MatchWrite(c, m, w).m;
            (r.dut == m.dut && !AllDone(m.exp)) || r.exp == []
    decreases |m.exp|
  {
    var exp := Advance(m.exp);
    if exp == [] {
    } else {
      AdvanceKeeps(m.exp);
      assert exp[0] in m.exp;
      var n := GroupLen(exp, exp[0].grp);
      var passed := FirstPending(exp[..n], w.addr) == n && !(InRam(c, w.addr) && m.ram[w.addr] == w.val);
      if passed {
        MatchWriteLead(c, m.(exp := exp[n..]), w);
      }
    }
  }

  lemma {:induction false} MatchAllLead(c: Config, m: Match, ds: seq<Ev>)
    requires c.ramBytes <= |m.ram| && Leads(m)
    requires MatchAll(c, m, ds).ok
    ensures var r := MatchAll(c, m, ds).m;
            Leads(r)
    decreases ds
  {
    if ds != [] {
      var w := Write(ds[0].addr, ds[0].val);
      MatchWriteLead(c, m, w);
      MatchAllLead(c, MatchWrite(c, m, w).m, ds[1..]);
    }
  }

  /** Only one side is ever ahead, in memory writes and in outputs: whatever
      the configuration, the other bus masters and the interleaving. */
  lemma {:induction false} OneSidedLead(c: Config, s: Machine, evs: seq<Event>)
    requires Fits(c, s) && OneSided(s) && Run(c, s, evs).Running?
    ensures OneSided(Run(c, s, evs).s)
    decreases evs
  {
    if evs != [] {
      match evs[0] {
        case Step(stores, outs, fpu) =>
          var st := StoreAll(c, Stored(s.m.ram, []), stores, fpu);
          MatchAllLead(c, Match(s.m.exp + Tagged(st.stage, s.ninsn + 1), [], st.ram), s.m.dut);
          IoAll(s.expIo + outs, [], s.dutIo);
        case DutWrite(phys, val) => MatchWriteLead(c, s.m, Write(PlatformPhys(s.a20, phys), val));
        case _ =>
      }
      OneSidedLead(c, Next(c, s, evs[0]).s, evs[1..]);
    }
  }
}
