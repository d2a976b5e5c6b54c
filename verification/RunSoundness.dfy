/** The invariant of a run, byte by byte: for a byte of RAM, how z486's memory
    and the reference's RAM stand to the writes on their way; for a device's,
    the two sequences of writes. */
module RunSoundness {
  import opened Platform
  import opened EventQueue
  import opened WriteMatcher
  import opened Outstanding
  import opened MatcherSoundness
  import opened CosimRun

  predicate AllDone(q: seq<Ev>) {
    forall e :: e in q ==> e.done
  }

  function Writes(q: seq<Ev>): (r: seq<Write>)
    ensures |r| == |q|
  {
    seq(|q|, k requires 0 <= k < |q| => Write(q[k].addr, q[k].val))
  }

  // ---- A byte of RAM ----

  /** The reference's outstanding writes of a byte, the values of z486's that
      wait for the reference, the reference's RAM and z486's memory. */
  datatype Cell = Cell(u: seq<Ev>, v: seq<Byte>, r: Byte, z: Byte)

  /** Every outstanding write with only silent ones behind it has the value. */
  ghost predicate Trailing(u: seq<Ev>, val: Byte) {
    forall k :: 0 <= k < |u| && AllSilent(u[k + 1..]) ==> u[k].val == val
  }

  /** The byte is on course: z486 can leave out the last silent writes, and
      what waits has z486's value last. */
  ghost predicate Sound(x: Cell) {
    && Trailing(x.u, x.r)
    && (if x.v == [] then AllSilent(x.u) ==> x.z == x.r else x.v[|x.v| - 1] == x.z)
  }

  /** With what is outstanding performed by z486, and what waits by the
      reference, the byte is the same on both sides. */
  ghost predicate Settled(x: Cell) {
    if x.v != [] then x.v[|x.v| - 1] == x.z
    else (if x.u == [] then x.z else x.u[|x.u| - 1].val) == x.r
  }

  /** What is left of that when the reference's RAM has been given a value
      that is not the last one outstanding. */
  ghost predicate Loose(x: Cell) {
    x.u != [] ==>
      && Trailing(x.u, x.u[|x.u| - 1].val)
      && (x.v == [] && AllSilent(x.u) ==> x.z == x.u[|x.u| - 1].val || x.z == x.r)
  }

  lemma LastIsTrailing(u: seq<Ev>, val: Byte)
    requires u != [] && Trailing(u, val)
    ensures u[|u| - 1].val == val
  {
    assert u[|u| - 1 + 1..] == [];
  }

  lemma SoundIsSettled(x: Cell)
    requires Sound(x)
    ensures Loose(x)
    ensures x.v == [] || x.u == [] ==> Settled(x)
  {
    if x.u != [] {
      LastIsTrailing(x.u, x.r);
    }
  }

  lemma SettledIsSound(x: Cell)
    requires Loose(x) && Settled(x) && (x.v == [] || x.u == [])
    ensures Sound(x)
  {
  }

  // ---- A comparison ----

  /** How a comparison moves a byte: its own, or another. */
  ghost predicate Moves(c: Config, x: Cell, y: Cell, own: bool, adopts: bool) {
    if !own then Skipped(x.u, y.u) && y == x.(u := y.u)
    else
      && x.v != []
      && if adopts then
           x.u != [] && y == x.(u := x.u[1..], v := x.v[1..], r := x.v[0])
         else
           || (x.u != [] && x.u[0].val == x.v[0] && y == x.(u := x.u[1..], v := x.v[1..]))
           || (x.r == x.v[0] && y == x.(v := x.v[1..]))
           || (x.u == [] && y == x)
  }

  lemma TrailingDrop(u: seq<Ev>, n: nat, val: Byte)
    requires n <= |u| && Trailing(u, val)
    ensures Trailing(u[n..], val)
    ensures AllSilent(u[n..]) && 0 < n ==> u[n - 1].val == val
  {
    forall k | 0 <= k < |u| - n && AllSilent(u[n..][k + 1..])
      ensures u[n..][k].val == val
    {
      assert u[n..][k + 1..] == u[n + k + 1..];
    }
    if 0 < n && AllSilent(u[n..]) {
      assert u[n - 1 + 1..] == u[n..];
    }
  }

  lemma SilentPast(u: seq<Ev>, n: nat)
    requires n <= |u| && AllSilent(u[..n]) && AllSilent(u[n..])
    ensures AllSilent(u)
  {
    forall k | 0 <= k < |u|
      ensures u[k].silent
    {
      if k < n {
        assert u[..n][k].silent;
      } else {
        assert u[n..][k - n].silent;
      }
    }
  }

  /** A careful comparison keeps the byte on course. */
  lemma SoundMoves(c: Config, x: Cell, y: Cell, own: bool, adopts: bool)
    requires Sound(x) && Moves(c, x, y, own, adopts)
    requires own && adopts ==> |x.u| == 1 || (x.u != [] && x.u[|x.u| - 1].val == x.v[0])
    ensures Sound(y)
  {
    if own {
      if x.u != [] {
        TrailingDrop(x.u, 1, x.r);
        LastIsTrailing(x.u, x.r);
      }
    } else {
      var n := |x.u| - |y.u|;
      TrailingDrop(x.u, n, x.r);
      if AllSilent(y.u) {
        SilentPast(x.u, n);
      }
    }
  }

  /** And any comparison keeps what is loosely so. */
  lemma LooseMoves(c: Config, x: Cell, y: Cell, own: bool, adopts: bool)
    requires Loose(x) && (x.v != [] ==> x.v[|x.v| - 1] == x.z) && Moves(c, x, y, own, adopts)
    ensures Loose(y) && (y.v != [] ==> y.v[|y.v| - 1] == y.z)
  {
    if x.u != [] {
      var val := x.u[|x.u| - 1].val;
      if own {
        TrailingDrop(x.u, 1, val);
      } else {
        var n := |x.u| - |y.u|;
        TrailingDrop(x.u, n, val);
        if AllSilent(y.u) {
          SilentPast(x.u, n);
        }
      }
    }
  }

  // ---- z486's writes ----

  lemma AllDoneAdvance(q: seq<Ev>)
    requires AllDone(q)
    ensures Advance(q) == []
  {
    if q != [] {
      AllDoneAdvance(q[1..]);
    }
  }

  lemma AllDoneUndone(q: seq<Ev>, a: int)
    requires AllDone(q)
    ensures Undone(q, a) == []
  {
    if q != [] {
      AllDoneUndone(q[1..], a);
    }
  }

  lemma WaitsBehind(c: Config, m: Match, w: Write)
    requires c.ramBytes <= |m.ram| && AllDone(m.exp)
    ensures MatchWrite(c, m, w) == Reply(m.(exp := [], dut := m.dut + [DutEvent(w)]), true)
  {
    AllDoneAdvance(m.exp);
  }

  lemma WritesConcat(p: seq<Ev>, q: seq<Ev>)
    ensures Writes(p + q) == Writes(p) + Writes(q)
  {
  }

  /** Only one side is ahead. */
  ghost predicate Leads(m: Match) {
    m.dut == [] || AllDone(m.exp)
  }

  /** Byte a, with the writes ds of z486 still to be compared. */
  ghost function CellOf(m: Match, ds: seq<Ev>, z: Byte, a: nat): Cell
    requires a < |m.ram|
  {
    Cell(Undone(m.exp, a), Stream(Writes(m.dut) + Writes(ds), a), m.ram[a], z)
  }

  lemma StreamCons(w: Write, ws: seq<Write>, a: int)
    ensures Stream([w] + ws, a) == if w.addr == a then [w.val] + Stream(ws, a) else Stream(ws, a)
  {
    StreamConcat([w], ws, a);
    StreamAppend([], w, a);
    assert [] + [w] == [w];
  }

  /** The write compared leaves the queue's front, or joins what waits. */
  lemma QueueMoves(dut: seq<Ev>, dut': seq<Ev>, ds: seq<Ev>, a: int)
    requires ds != []
    requires (dut' == dut == []) || dut' == dut + [DutEvent(Write(ds[0].addr, ds[0].val))]
    ensures var v, v' := Stream(Writes(dut) + Writes(ds), a), Stream(Writes(dut') + Writes(ds[1..]), a);
            && (ds[0].addr == a ==> v != [])
            && if dut' == [] && ds[0].addr == a then v == [ds[0].val] + v' else v' == v
  {
    var w := Write(ds[0].addr, ds[0].val);
    assert Writes(ds) == [w] + Writes(ds[1..]);
    StreamConcat(Writes(dut), Writes(ds), a);
    StreamCons(w, Writes(ds[1..]), a);
    if dut' == [] {
      assert Writes([]) + Writes(ds) == [w] + Writes(ds[1..]) && Writes([]) + Writes(ds[1..]) == Writes(ds[1..]);
    } else {
      WritesConcat(dut, [DutEvent(w)]);
      assert Writes([DutEvent(w)]) == [w];
      assert Writes(dut) + [w] + Writes(ds[1..]) == Writes(dut) + ([w] + Writes(ds[1..]));
    }
  }

  lemma LeadsOn(c: Config, m: Match, w: Write)
    requires c.ramBytes <= |m.ram| && Leads(m) && MatchWrite(c, m, w).ok
    ensures var r := MatchWrite(c, m, w).m;
            && Leads(r)
            && ((r.dut == m.dut == []) || (r.dut == m.dut + [DutEvent(w)] && r.exp == []))
  {
    hide MatchWrite;
    CompareQueues(c, m, w);
    if m.dut != [] {
      WaitsBehind(c, m, w);
    }
  }

  lemma CellMoves(c: Config, m: Match, ds: seq<Ev>, z: Byte, a: nat)
    requires c.ramBytes <= |m.ram| && Leads(m) && ds != [] && InRam(c, a)
    requires var w := Write(ds[0].addr, ds[0].val); MatchWrite(c, m, w).ok
    ensures var w := Write(ds[0].addr, ds[0].val);
            Moves(c, CellOf(m, ds, z, a), CellOf(MatchWrite(c, m, w).m, ds[1..], z, a), w.addr == a, Adopts(c, m, w))
    ensures var w, x := Write(ds[0].addr, ds[0].val), CellOf(m, ds, z, a);
            w.addr == a && Adopts(c, m, w) ==> x.v[0] == w.val
  {
    hide MatchWrite, Adopts, Undone, Stream, Writes;
    var w := Write(ds[0].addr, ds[0].val);
    LeadsOn(c, m, w);
    CompareByte(c, m, w, a);
    QueueMoves(m.dut, MatchWrite(c, m, w).m.dut, ds, a);
  }

  /** No z486 write that waits, as it is compared at last, is adopted at a
      under a later write of another value. */
  ghost predicate CarefulAll(c: Config, m: Match, ds: seq<Ev>, a: int)
    requires c.ramBytes <= |m.ram|
    decreases ds
  {
    ds != [] ==>
      var w := Write(ds[0].addr, ds[0].val);
      && (w.addr == a ==> Careful(c, m, w))
      && (MatchWrite(c, m, w).ok ==> CarefulAll(c, MatchWrite(c, m, w).m, ds[1..], a))
  }

  /** What is kept of byte a, with care and without. */
  ghost predicate OnCourse(x: Cell, careful: bool) {
    if careful then Sound(x) else Loose(x) && (x.v != [] ==> x.v[|x.v| - 1] == x.z)
  }

  lemma {:induction false} ReplayCourse(c: Config, m: Match, ds: seq<Ev>, z: Byte, a: nat, careful: bool)
    requires c.ramBytes <= |m.ram| && Leads(m) && InRam(c, a) && MatchAll(c, m, ds).ok
    requires OnCourse(CellOf(m, ds, z, a), careful) && (careful ==> CarefulAll(c, m, ds, a))
    ensures var r := MatchAll(c, m, ds).m;
            Leads(r) && OnCourse(CellOf(r, [], z, a), careful)
    decreases ds
  {
    hide MatchWrite, Adopts, Undone, Stream, Writes, Sound, Loose, Moves, Leads;
    if ds != [] {
      var w := Write(ds[0].addr, ds[0].val);
      var r := MatchWrite(c, m, w).m;
      var x, y := CellOf(m, ds, z, a), CellOf(r, ds[1..], z, a);
      CellMoves(c, m, ds, z, a);
      LeadsOn(c, m, w);
      if careful {
        SoundMoves(c, x, y, w.addr == a, Adopts(c, m, w));
      } else {
        LooseMoves(c, x, y, w.addr == a, Adopts(c, m, w));
      }
      ReplayCourse(c, r, ds[1..], z, a, careful);
    }
  }

  lemma {:induction false} ReplaySilent(c: Config, m: Match, ds: seq<Ev>)
    requires c.ramBytes <= |m.ram| && SilentInRam(c, m.exp) && MatchAll(c, m, ds).ok
    ensures SilentInRam(c, MatchAll(c, m, ds).m.exp)
    decreases ds
  {
    hide MatchWrite, SilentInRam;
    if ds != [] {
      var w := Write(ds[0].addr, ds[0].val);
      CompareQueues(c, m, w);
      ReplaySilent(c, MatchWrite(c, m, w).m, ds[1..]);
    }
  }

  // ---- The reference's stores ----

  lemma IndexInRam(ram: seq<Byte>, phys: int)
    requires 0 <= phys < |ram|
    ensures Index(ram, phys) == phys
  {
  }

  /** The byte after one more store of it. */
  lemma SoundStored(x: Cell, e: Ev)
    requires Sound(x) && e.silent == (e.val == x.r)
    ensures Sound(x.(u := x.u + [e], r := e.val))
  {
    var u := x.u + [e];
    forall k | 0 <= k < |u| && AllSilent(u[k + 1..])
      ensures u[k].val == e.val
    {
      if k < |x.u| {
        var tail := u[k + 1..];
        assert tail[|tail| - 1] == e && tail[..|tail| - 1] == x.u[k + 1..];
        assert forall j :: 0 <= j < |tail| - 1 ==> x.u[k + 1..][j] == tail[j];
      }
    }
    if AllSilent(u) {
      assert u[|x.u|] == e;
      assert forall j :: 0 <= j < |x.u| ==> u[j] == x.u[j];
    }
  }

  /** A step's stores, as they are staged. */
  lemma {:induction false} SoundStores(c: Config, exp: seq<Ev>, s: Stored, ws: seq<Write>, fpu: bool,
                                       v: seq<Byte>, z: Byte, a: nat)
    requires 0 < |s.ram| && c.ramBytes <= |s.ram| && InRam(c, a)
    requires Sound(Cell(Undone(exp + s.stage, a), v, s.ram[a], z))
    ensures var r := StoreAll(c, s, ws, fpu); Sound(Cell(Undone(exp + r.stage, a), v, r.ram[a], z))
    decreases ws
  {
    hide Sound;
    if ws != [] {
      SoundStore(c, exp, s, ws[0], fpu, v, z, a);
      SoundStores(c, exp, StoreByte(c, s, ws[0].addr, ws[0].val, fpu), ws[1..], fpu, v, z, a);
    }
  }

  lemma SoundStore(c: Config, exp: seq<Ev>, s: Stored, w: Write, fpu: bool, v: seq<Byte>, z: Byte, a: nat)
    requires 0 < |s.ram| && c.ramBytes <= |s.ram| && InRam(c, a)
    requires Sound(Cell(Undone(exp + s.stage, a), v, s.ram[a], z))
    ensures var r := StoreByte(c, s, w.addr, w.val, fpu); Sound(Cell(Undone(exp + r.stage, a), v, r.ram[a], z))
  {
    hide Sound;
    var r := StoreByte(c, s, w.addr, w.val, fpu);
    var q, e := exp + s.stage, r.stage[|s.stage|];
    assert exp + r.stage == q + [e];
    UndoneConcat(q, [e], a);
    if InRam(c, w.addr) {
      IndexInRam(s.ram, w.addr);
    }
    if w.addr == a {
      assert Undone([e], a) == [e];
      SoundStored(Cell(Undone(q, a), v, s.ram[a], z), e);
    } else {
      assert Undone([e], a) == [] && Undone(q, a) + [] == Undone(q, a);
    }
  }


  function Staged(c: Config, s: Machine, stores: seq<Write>, fpu: bool): (r: Stored)
    requires Fits(c, s)
    ensures |r.ram| == |s.m.ram|
  {
    StoreAll(c, Stored(s.m.ram, []), stores, fpu)
  }

  /** The instruction number on an entry plays no part in any of this. */
  lemma {:induction false} UndoneTagged(p: seq<Ev>, q: seq<Ev>, grp: nat, a: int)
    ensures |Undone(Tagged(q, grp), a)| == |Undone(q, a)|
    ensures forall k :: 0 <= k < |Undone(q, a)| ==> Undone(Tagged(q, grp), a)[k] == Undone(q, a)[k].(grp := grp)
    ensures Values(Undone(Tagged(q, grp), a)) == Values(Undone(q, a))
    ensures Undone(p + Tagged(q, grp), a) == Undone(p, a) + Undone(Tagged(q, grp), a)
    ensures Undone(p + q, a) == Undone(p, a) + Undone(q, a)
  {
    UndoneConcat(p, q, a);
    UndoneConcat(p, Tagged(q, grp), a);
    if q != [] {
      assert Tagged(q, grp)[1..] == Tagged(q[1..], grp);
      UndoneTagged(p, q[1..], grp, a);
    }
  }

  lemma TaggedUndone(p: seq<Ev>, q: seq<Ev>, grp: nat, a: int)
    ensures var u, v := Undone(p + q, a), Undone(p + Tagged(q, grp), a);
            |v| == |u| && forall k :: 0 <= k < |u| ==> v[k].silent == u[k].silent && v[k].val == u[k].val
  {
    hide Undone, Tagged;
    UndoneTagged(p, q, grp, a);
  }

  lemma TaggedSilent(c: Config, exp: seq<Ev>, stage: seq<Ev>, grp: nat)
    requires SilentInRam(c, exp + stage)
    ensures SilentInRam(c, exp + Tagged(stage, grp))
  {
    forall e | e in exp + Tagged(stage, grp) && e.silent
      ensures InRam(c, e.addr)
    {
      if e !in exp {
        var k :| 0 <= k < |stage| && Tagged(stage, grp)[k] == e;
        assert stage[k] in exp + stage;
      }
    }
  }

  lemma SoundTagged(x: Cell, u: seq<Ev>)
    requires Sound(x) && |u| == |x.u|
    requires forall k :: 0 <= k < |u| ==> u[k].silent == x.u[k].silent && u[k].val == x.u[k].val
    ensures Sound(x.(u := u))
  {
    forall k | 0 <= k < |u| && AllSilent(u[k + 1..])
      ensures u[k].val == x.r
    {
      var p, q := x.u[k + 1..], u[k + 1..];
      assert forall j :: 0 <= j < |p| ==> p[j].silent == q[j].silent;
    }
    if AllSilent(u) {
      assert AllSilent(x.u);
    }
  }

  lemma {:induction false} StoresSilent(c: Config, exp: seq<Ev>, s: Stored, ws: seq<Write>, fpu: bool)
    requires 0 < |s.ram| && c.ramBytes <= |s.ram| && SilentInRam(c, exp + s.stage)
    ensures SilentInRam(c, exp + StoreAll(c, s, ws, fpu).stage)
    decreases ws
  {
    if ws != [] {
      var r := StoreByte(c, s, ws[0].addr, ws[0].val, fpu);
      assert exp + r.stage == (exp + s.stage) + [r.stage[|s.stage|]];
      StoresSilent(c, exp, r, ws[1..], fpu);
    }
  }

  /** The matcher when a step's stores have joined the queue, before z486's
      writes that had arrived first are compared. */
  function Joined(c: Config, s: Machine, stores: seq<Write>, fpu: bool): (m: Match)
    requires Fits(c, s)
    ensures |m.ram| == |s.m.ram|
  {
    var st := Staged(c, s, stores, fpu);
    Match(s.m.exp + Tagged(st.stage, s.ninsn + 1), [], st.ram)
  }

  lemma JoinedSound(c: Config, s: Machine, stores: seq<Write>, fpu: bool, z: Byte, a: nat)
    requires Fits(c, s) && InRam(c, a) && Sound(CellOf(s.m, [], z, a))
    ensures Sound(CellOf(Joined(c, s, stores, fpu), s.m.dut, z, a))
  {
    hide Sound, Undone, Stream, StoreAll, Tagged;
    var st, v := Staged(c, s, stores, fpu), Stream(Writes(s.m.dut), a);
    assert Writes([]) == [] && Writes(s.m.dut) + [] == Writes(s.m.dut) == [] + Writes(s.m.dut);
    assert s.m.exp + [] == s.m.exp;
    SoundStores(c, s.m.exp, Stored(s.m.ram, []), stores, fpu, v, z, a);
    TaggedUndone(s.m.exp, st.stage, s.ninsn + 1, a);
    SoundTagged(Cell(Undone(s.m.exp + st.stage, a), v, st.ram[a], z),
                Undone(s.m.exp + Tagged(st.stage, s.ninsn + 1), a));
  }

  lemma JoinedSilent(c: Config, s: Machine, stores: seq<Write>, fpu: bool)
    requires Fits(c, s) && SilentInRam(c, s.m.exp)
    ensures SilentInRam(c, Joined(c, s, stores, fpu).exp)
  {
    hide SilentInRam, StoreAll, Tagged;
    assert s.m.exp + [] == s.m.exp;
    StoresSilent(c, s.m.exp, Stored(s.m.ram, []), stores, fpu);
    TaggedSilent(c, s.m.exp, Staged(c, s, stores, fpu).stage, s.ninsn + 1);
  }

  // ---- A device's byte ----

  /** All writes of a byte by the reference, which of them are x87 stores, all
      by z486, and those outstanding or waiting. */
  datatype Traffic = Traffic(ref: seq<Byte>, x87: seq<bool>, dut: seq<Byte>, u: seq<Ev>, v: seq<Byte>)

  /** The writes compared so far are the same, x87 stores aside if those are
      not checked; the rest is outstanding or waits. */
  ghost predicate Agreed(c: Config, t: Traffic) {
    && |t.x87| == |t.ref| && |t.u| <= |t.ref| && |t.ref| - |t.u| == |t.dut| - |t.v|
    && var n := |t.ref| - |t.u|;
       && (forall k :: 0 <= k < n ==> t.ref[k] == t.dut[k] || (c.lenient && t.x87[k]))
       && t.ref[n..] == Values(t.u)
       && (forall k :: 0 <= k < |t.u| ==> t.x87[n..][k] == t.u[k].fpu)
       && t.dut[n..] == t.v
  }

  lemma AgreedCompared(c: Config, t: Traffic)
    requires Agreed(c, t) && t.u != [] && t.v != []
    requires t.u[0].val == t.v[0] || (c.lenient && t.u[0].fpu)
    ensures Agreed(c, t.(u := t.u[1..], v := t.v[1..]))
  {
    var n := |t.ref| - |t.u|;
    assert t.ref[n..][0] == t.u[0].val && t.dut[n..][0] == t.v[0] && t.x87[n..][0] == t.u[0].fpu;
    assert t.ref[n + 1..] == t.ref[n..][1..] == Values(t.u)[1..] == Values(t.u[1..]);
    assert t.dut[n + 1..] == t.dut[n..][1..];
    assert t.x87[n + 1..] == t.x87[n..][1..];
  }

  ghost function TrafficOf(m: Match, ds: seq<Ev>, ref: seq<Byte>, x87: seq<bool>, dut: seq<Byte>, a: int): Traffic {
    Traffic(ref, x87, dut, Undone(m.exp, a), Stream(Writes(m.dut) + Writes(ds), a))
  }

  lemma TrafficMoves(c: Config, m: Match, ds: seq<Ev>, ref: seq<Byte>, x87: seq<bool>, dut: seq<Byte>, a: int)
    requires c.ramBytes <= |m.ram| && Leads(m) && SilentInRam(c, m.exp) && ds != [] && !InRam(c, a)
    requires MatchWrite(c, m, Write(ds[0].addr, ds[0].val)).ok && Agreed(c, TrafficOf(m, ds, ref, x87, dut, a))
    ensures Agreed(c, TrafficOf(MatchWrite(c, m, Write(ds[0].addr, ds[0].val)).m, ds[1..], ref, x87, dut, a))
  {
    hide MatchWrite, Adopts, Undone, Stream, Writes, Agreed, Skipped;
    var w := Write(ds[0].addr, ds[0].val);
    var r := MatchWrite(c, m, w).m;
    LeadsOn(c, m, w);
    CompareByte(c, m, w, a);
    QueueMoves(m.dut, r.dut, ds, a);
    var t, t' := TrafficOf(m, ds, ref, x87, dut, a), TrafficOf(r, ds[1..], ref, x87, dut, a);
    if w.addr != a {
      DeviceNotSkipped(c, m.exp, a, t'.u);
    } else if r.dut == m.dut {
      AgreedCompared(c, t);
    }
  }

  lemma {:induction false} ReplayTraffic(c: Config, m: Match, ds: seq<Ev>, ref: seq<Byte>, x87: seq<bool>,
                                         dut: seq<Byte>, a: int)
    requires c.ramBytes <= |m.ram| && Leads(m) && SilentInRam(c, m.exp) && !InRam(c, a) && MatchAll(c, m, ds).ok
    requires Agreed(c, TrafficOf(m, ds, ref, x87, dut, a))
    ensures Agreed(c, TrafficOf(MatchAll(c, m, ds).m, [], ref, x87, dut, a))
    decreases ds
  {
    hide MatchWrite, Undone, Stream, Writes, Agreed, SilentInRam, Leads;
    if ds != [] {
      var w := Write(ds[0].addr, ds[0].val);
      TrafficMoves(c, m, ds, ref, x87, dut, a);
      LeadsOn(c, m, w);
      CompareQueues(c, m, w);
      ReplayTraffic(c, MatchWrite(c, m, w).m, ds[1..], ref, x87, dut, a);
    }
  }

  lemma AgreedStored(c: Config, t: Traffic, u: seq<Ev>, fpu: bool)
    requires Agreed(c, t) && forall e :: e in u ==> e.fpu == fpu
    ensures Agreed(c, t.(ref := t.ref + Values(u), x87 := t.x87 + seq(|u|, _ => fpu), u := t.u + u))
  {
    var n := |t.ref| - |t.u|;
    ValuesConcat(t.u, u);
    assert (t.ref + Values(u))[n..] == t.ref[n..] + Values(u);
    var x, all := t.x87 + seq(|u|, _ => fpu), t.u + u;
    forall k | 0 <= k < |all|
      ensures x[n..][k] == all[k].fpu
    {
      if k < |t.u| {
        assert x[n..][k] == t.x87[n..][k];
      } else {
        assert all[k] == u[k - |t.u|] && u[k - |t.u|] in u;
      }
    }
  }

  lemma {:induction false} StoresStream(c: Config, s: Stored, ws: seq<Write>, fpu: bool, a: int)
    requires 0 < |s.ram| && c.ramBytes <= |s.ram|
    ensures Values(Undone(StoreAll(c, s, ws, fpu).stage, a)) == Values(Undone(s.stage, a)) + Stream(ws, a)
    decreases ws
  {
    if ws != [] {
      var s1 := StoreByte(c, s, ws[0].addr, ws[0].val, fpu);
      var e := s1.stage[|s.stage|];
      UndoneConcat(s.stage, [e], a);
      ValuesConcat(Undone(s.stage, a), Undone([e], a));
      StreamAppend([], ws[0], a);
      assert ws == [ws[0]] + ws[1..];
      StreamConcat([ws[0]], ws[1..], a);
      StoresStream(c, s1, ws[1..], fpu, a);
    }
  }

  lemma {:induction false} StoresX87(c: Config, s: Stored, ws: seq<Write>, fpu: bool)
    requires 0 < |s.ram| && c.ramBytes <= |s.ram| && forall e :: e in s.stage ==> e.fpu == fpu
    ensures forall e :: e in StoreAll(c, s, ws, fpu).stage ==> e.fpu == fpu
    decreases ws
  {
    if ws != [] {
      StoresX87(c, StoreByte(c, s, ws[0].addr, ws[0].val, fpu), ws[1..], fpu);
    }
  }

  lemma TaggedX87(q: seq<Ev>, grp: nat, fpu: bool, a: int)
    requires forall e :: e in q ==> e.fpu == fpu
    ensures forall e :: e in Undone(Tagged(q, grp), a) ==> e.fpu == fpu
  {
    UndoneEntries(Tagged(q, grp), a);
  }

  lemma JoinedTraffic(c: Config, s: Machine, stores: seq<Write>, fpu: bool, ref: seq<Byte>, x87: seq<bool>,
                      dut: seq<Byte>, a: int)
    requires Fits(c, s) && Agreed(c, TrafficOf(s.m, [], ref, x87, dut, a))
    ensures var added := Stream(stores, a);
            Agreed(c, TrafficOf(Joined(c, s, stores, fpu), s.m.dut, ref + added, x87 + seq(|added|, _ => fpu), dut, a))
  {
    hide Agreed, Undone, Stream, StoreAll, Tagged;
    var st, added := Staged(c, s, stores, fpu), Stream(stores, a);
    var u := Undone(Tagged(st.stage, s.ninsn + 1), a);
    assert Writes([]) == [] && Writes(s.m.dut) + [] == Writes(s.m.dut) == [] + Writes(s.m.dut);
    StoresStream(c, Stored(s.m.ram, []), stores, fpu, a);
    assert Values(Undone([], a)) + added == added by { assert Undone([], a) == [] by { UndoneNone([], a); } }
    UndoneTagged(s.m.exp, st.stage, s.ninsn + 1, a);
    StoresX87(c, Stored(s.m.ram, []), stores, fpu);
    TaggedX87(st.stage, s.ninsn + 1, fpu, a);
    AgreedStored(c, TrafficOf(s.m, [], ref, x87, dut, a), u, fpu);
  }

  // ---- Outputs ----

  /** Everything each side has done, the other has matched. */
  ghost predicate Drained(s: Machine) {
    AllDone(s.m.exp) && s.m.dut == [] && s.expIo == [] && s.dutIo == []
  }

  ghost predicate IoInv(s: Machine, o: Observed) {
    && o.refOut + s.dutIo == o.dutOut + s.expIo
    && (s.expIo == [] || s.dutIo == [])
  }

  lemma Shift<T>(a: seq<T>, b: seq<T>, c: seq<T>, x: seq<T>, y: seq<T>)
    requires b + c == x + y
    ensures (a + b) + c == (a + x) + y
  {
    assert (a + b) + c == a + (b + c);
    assert (a + x) + y == a + (x + y);
  }

  lemma StepIo(s: Machine, o: Observed, outs: seq<Write>)
    requires IoInv(s, o) && MatchAllIo(s.expIo + outs, [], s.dutIo).ok
    ensures var io := MatchAllIo(s.expIo + outs, [], s.dutIo);
            && (o.refOut + outs) + io.dutIo == o.dutOut + io.expIo
            && (io.expIo == [] || io.dutIo == [])
  {
    IoAll(s.expIo + outs, [], s.dutIo);
    assert [] + s.dutIo == s.dutIo;
    var io := MatchAllIo(s.expIo + outs, [], s.dutIo);
    IoRegroup(o.refOut, outs, o.dutOut, s.expIo, s.dutIo, io.expIo, io.dutIo);
  }

  lemma IoRegroup<T>(ref: seq<T>, outs: seq<T>, dut: seq<T>, exp: seq<T>, ahead: seq<T>, exp': seq<T>, ahead': seq<T>)
    requires ref + ahead == dut + exp && (exp == [] || ahead == [])
    requires (exp + outs) + ahead' == ahead + exp'
    ensures (ref + outs) + ahead' == dut + exp'
  {
    if ahead == [] {
      assert ref == dut + exp;
      assert ((dut + exp) + outs) + ahead' == dut + ((exp + outs) + ahead');
    } else {
      assert dut == ref + ahead;
      assert (ref + outs) + ahead' == ref + (outs + ahead');
      assert (ref + ahead) + exp' == ref + (ahead + exp');
    }
  }

  /** The I/O streams: what the reference output is what z486 output plus
      what is still expected of it, or less what it is ahead by. */
  lemma IoOne(expIo: seq<Write>, dutIo: seq<Write>, w: Write)
    requires MatchIo(expIo, dutIo, w).ok && (expIo == [] || dutIo == [])
    ensures var r := MatchIo(expIo, dutIo, w);
            && (r.expIo == [] || r.dutIo == [])
            && (expIo == [] ==> r.expIo == [] && r.dutIo == dutIo + [w])
            && (expIo != [] ==> expIo == [w] + r.expIo && r.dutIo == [])
  {
  }

  lemma {:induction false} IoAll(expIo: seq<Write>, dutIo: seq<Write>, ws: seq<Write>)
    requires MatchAllIo(expIo, dutIo, ws).ok && (expIo == [] || dutIo == [])
    ensures var r := MatchAllIo(expIo, dutIo, ws);
            && (r.expIo == [] || r.dutIo == [])
            && expIo + r.dutIo == dutIo + ws + r.expIo
    decreases ws
  {
    if ws == [] {
    } else {
      IoOne(expIo, dutIo, ws[0]);
      var r := MatchIo(expIo, dutIo, ws[0]);
      IoAll(r.expIo, r.dutIo, ws[1..]);
      var t := MatchAllIo(expIo, dutIo, ws);
      assert ws == [ws[0]] + ws[1..];
      if expIo == [] {
        assert dutIo + ws == r.dutIo + ws[1..];
      } else {
        assert r.expIo + t.dutIo == ws[1..] + t.expIo;
        Shift([ws[0]], r.expIo, t.dutIo, ws[1..], t.expIo);
      }
    }
  }
}
