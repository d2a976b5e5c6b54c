/** Completeness of the matcher: a z486 that performs the reference's writes,
    instruction by instruction, is never reported, however far either side is
    ahead of the other. */
module MatcherCompleteness {
  import opened Platform
  import opened EventQueue
  import opened WriteMatcher
  import opened Outstanding
  import opened MatcherSoundness
  import opened CosimRun
  import opened RunSoundness

  // ---- Runs of a z486 that follows the reference ----

  /** One instruction's writes as each side performs them. */
  datatype Group = Group(ref: seq<Write>, dut: seq<Write>)

  /** The same writes in any order that keeps each byte's own order. */
  ghost predicate SameWrites(g: Group) {
    forall a :: Stream(g.ref, a) == Stream(g.dut, a)
  }

  function DutWrites(gs: seq<Group>): seq<Write> {
    if gs == [] then [] else gs[0].dut + DutWrites(gs[1..])
  }

  /** The stores of each of the reference's steps in evs. */
  function StepsOf(evs: seq<Event>): seq<seq<Write>> {
    if evs == [] then []
    else (if evs[0].Step? then [evs[0].stores] else []) + StepsOf(evs[1..])
  }

  function OutsOf(evs: seq<Event>): seq<Write> {
    if evs == [] then []
    else (if evs[0].Step? then evs[0].outs else []) + OutsOf(evs[1..])
  }

  function DutOutsOf(evs: seq<Event>): seq<Write> {
    if evs == [] then []
    else (if evs[0].DutOut? then [Write(evs[0].port, evs[0].val)] else []) + DutOutsOf(evs[1..])
  }

  /** z486's memory writes in evs, at the bus addresses they reach. */
  function DutsOf(a20: bool, evs: seq<Event>): seq<Write>
    decreases evs
  {
    if evs == [] then []
    else
      (if evs[0].DutWrite? then [Write(PlatformPhys(a20, evs[0].phys), evs[0].val)] else [])
      + DutsOf(if evs[0].SetA20? then evs[0].on else a20, evs[1..])
  }

  /** evs interleaves, in any way, the reference's steps with a z486 that
      performs the same writes group by group and the same outputs. */
  ghost predicate Follows(a20: bool, evs: seq<Event>, gs: seq<Group>) {
    && (forall g :: g in gs ==> SameWrites(g))
    && StepsOf(evs) == seq(|gs|, k requires 0 <= k < |gs| => gs[k].ref)
    && DutsOf(a20, evs) == DutWrites(gs)
    && DutOutsOf(evs) == OutsOf(evs)
  }

  // ---- Committed groups ----

  /** A committed instruction: its queue entries, and z486's writes for it
      that have yet to be matched. */
  datatype Block = Block(id: nat, evs: seq<Ev>, left: seq<Write>)

  ghost predicate BlockOk(b: Block) {
    && (forall e :: e in b.evs ==> e.grp == b.id)
    && (forall a :: Values(Undone(b.evs, a)) == Stream(b.left, a))
  }

  ghost predicate Lined(bs: seq<Block>, top: nat) {
    bs != [] ==>
      && BlockOk(bs[0]) && bs[0].id <= top
      && (forall e :: e in Entries(bs[1..]) ==> e.grp != bs[0].id)
      && Lined(bs[1..], top)
  }

  ghost function Entries(bs: seq<Block>): seq<Ev> {
    if bs == [] then [] else bs[0].evs + Entries(bs[1..])
  }

  ghost function Left(bs: seq<Block>): seq<Write> {
    if bs == [] then [] else bs[0].left + Left(bs[1..])
  }

  lemma {:induction false} EntriesAppend(bs: seq<Block>, b: Block)
    ensures Entries(bs + [b]) == Entries(bs) + b.evs
    ensures Left(bs + [b]) == Left(bs) + b.left
  {
    if bs == [] {
      assert [b][1..] == [];
      assert Entries([]) + b.evs == b.evs + Entries([]);
    } else {
      assert (bs + [b])[1..] == bs[1..] + [b];
      EntriesAppend(bs[1..], b);
    }
  }

  lemma StreamHead(ws: seq<Write>)
    requires ws != []
    ensures forall a :: Stream(ws, a) == (if ws[0].addr == a then [ws[0].val] else []) + Stream(ws[1..], a)
  {
    forall a
      ensures Stream(ws, a) == (if ws[0].addr == a then [ws[0].val] else []) + Stream(ws[1..], a)
    {
      assert ws == [ws[0]] + ws[1..];
      StreamConcat([ws[0]], ws[1..], a);
      StreamAppend([], ws[0], a);
    }
  }

  /** A block is used up on both sides at once. */
  lemma BlockEmpty(b: Block)
    requires BlockOk(b)
    ensures AllDone(b.evs) <==> b.left == []
  {
    if AllDone(b.evs) {
      if b.left != [] {
        var a := b.left[0].addr;
        AllDoneUndone(b.evs, a);
        StreamHead(b.left);
        assert false;
      }
    }
    if b.left == [] {
      forall e | e in b.evs
        ensures e.done
      {
        assert Values(Undone(b.evs, e.addr)) == Stream(b.left, e.addr);
        if !e.done {
          PendingUndone(b.evs, e);
        }
      }
    }
  }

  lemma {:induction false} PendingUndone(q: seq<Ev>, e: Ev)
    requires e in q && !e.done
    ensures Undone(q, e.addr) != []
  {
    if q[0] != e {
      PendingUndone(q[1..], e);
    }
  }

  lemma {:induction false} AdvanceConcat(p: seq<Ev>, q: seq<Ev>)
    ensures Advance(p + q) == if AllDone(p) then Advance(q) else Advance(p) + q
    ensures !AllDone(p) ==> Advance(p) != []
  {
    if p == [] {
      assert p + q == q;
    } else if p[0].done {
      assert (p + q)[1..] == p[1..] + q;
      AdvanceConcat(p[1..], q);
      assert AllDone(p) <==> AllDone(p[1..]);
    } else {
      assert p[0] in p;
    }
  }

  lemma AdvanceTwice(q: seq<Ev>)
    ensures Advance(Advance(q)) == Advance(q)
  {
  }

  lemma {:induction false} GroupLenConcat(p: seq<Ev>, q: seq<Ev>, id: nat)
    requires forall e :: e in p ==> e.grp == id
    requires forall e :: e in q ==> e.grp != id
    ensures GroupLen(p + q, id) == |p|
  {
    if p == [] {
      assert p + q == q;
    } else {
      assert (p + q)[1..] == p[1..] + q;
      GroupLenConcat(p[1..], q, id);
    }
  }

  // ---- One z486 write ----

  /** The first unmatched write to the byte z486 writes next is that write;
      matching it uses up one write on both sides. */
  lemma MarkInBlock(b: Block) returns (i: nat, b': Block)
    requires BlockOk(b) && b.left != []
    ensures i == FirstPending(b.evs, b.left[0].addr) < |b.evs|
    ensures b.evs[i].val == b.left[0].val
    ensures b' == Block(b.id, b.evs[i := b.evs[i].(done := true)], b.left[1..]) && BlockOk(b')
  {
    var w := b.left[0];
    StreamHead(b.left);
    i := FirstPending(b.evs, w.addr);
    UndoneNone(b.evs, w.addr);
    assert Values(Undone(b.evs, w.addr)) == Stream(b.left, w.addr);
    UndoneMark(b.evs, i, w.addr);
    assert Values(Undone(b.evs, w.addr))[0] == b.evs[i].val;
    assert Stream(b.left, w.addr)[0] == w.val;
    var marked := b.evs[i := b.evs[i].(done := true)];
    b' := Block(b.id, marked, b.left[1..]);
    forall a
      ensures Values(Undone(marked, a)) == Stream(b.left[1..], a)
    {
      UndoneMark(b.evs, i, a);
      assert Values(Undone(b.evs, a)) == Stream(b.left, a);
      if a == w.addr {
        assert Undone(b.evs, a)[1..] == Undone(marked, a);
        assert Stream(b.left, a)[1..] == Stream(b.left[1..], a);
      } else {
        assert [] + Stream(b.left[1..], a) == Stream(b.left[1..], a);
      }
    }
  }

  lemma AdvanceOk(b: Block)
    requires BlockOk(b)
    ensures BlockOk(b.(evs := Advance(b.evs)))
  {
    AdvanceKeeps(b.evs);
    forall a
      ensures Values(Undone(Advance(b.evs), a)) == Stream(b.left, a)
    {
      UndoneAdvance(b.evs, a);
    }
  }

  /** z486's next write for the oldest unfinished instruction is matched. */
  lemma MatchInBlock(c: Config, m: Match, b: Block, q: seq<Ev>) returns (b': Block)
    requires c.ramBytes <= |m.ram| && BlockOk(b) && !AllDone(b.evs) && b.left != []
    requires Advance(m.exp) == Advance(b.evs + q) && (forall e :: e in q ==> e.grp != b.id)
    ensures MatchWrite(c, m, b.left[0]) == Reply(m.(exp := Advance(b'.evs + q)), true)
    ensures b'.id == b.id && b'.left == b.left[1..] && BlockOk(b')
  {
    hide MatchWrite, Undone, Stream, Values, Advance, GroupLen, FirstPending, AllDone;
    var w, p := b.left[0], Advance(b.evs);
    AdvanceConcat(b.evs, q);
    AdvanceOk(b);
    var i;
    i, b' := MarkInBlock(b.(evs := p));
    var exp := Advance(m.exp);
    assert exp == p + q && exp[0] == p[0] && p[0] in p;
    GroupLenConcat(p, q, b.id);
    Spliced(p, q, i, p[i].(done := true));
    Found(c, m, w, exp, |p|, i);
  }

  lemma Spliced<T>(p: seq<T>, q: seq<T>, i: nat, x: T)
    requires i < |p|
    ensures (p + q)[..|p|] == p && (p + q)[i := x] == p[i := x] + q && (p + q)[i] == p[i]
  {
  }

  /** An unfinished queue has an unfinished instruction: skip those done. */
  lemma {:induction false} SkipFinished(bs: seq<Block>, top: nat) returns (r: seq<Block>)
    requires Lined(bs, top)
    ensures Lined(r, top) && Left(r) == Left(bs) && Advance(Entries(r)) == Advance(Entries(bs))
    ensures if Advance(Entries(bs)) == [] then r == [] else r != [] && !AllDone(r[0].evs)
    decreases bs
  {
    r := bs;
    if bs != [] {
      AdvanceConcat(bs[0].evs, Entries(bs[1..]));
      BlockEmpty(bs[0]);
      if AllDone(bs[0].evs) {
        assert Left(bs) == Left(bs[1..]);
        r := SkipFinished(bs[1..], top);
      }
    }
  }

  /** One write of a z486 that follows the reference: matched if any
      instruction is unfinished, else queued. */
  lemma MatchNext(c: Config, m: Match, bs: seq<Block>, top: nat, w: Write, rest: seq<Write>)
    returns (bs': seq<Block>)
    requires c.ramBytes <= |m.ram| && Lined(bs, top) && Advance(m.exp) == Advance(Entries(bs))
    requires Advance(m.exp) != [] ==> Left(bs) <= [w] + rest
    ensures var r := MatchWrite(c, m, w);
            && r.ok && Lined(bs', top) && Advance(r.m.exp) == Advance(Entries(bs')) && r.m.ram == m.ram
            && (Advance(m.exp) == [] ==>
                  r.m.exp == [] && r.m.dut == m.dut + [DutEvent(w)] && Left(bs) == [] && bs' == [])
            && (Advance(m.exp) != [] ==> r.m.dut == m.dut && Left(bs) == [w] + Left(bs'))
  {
    var bs1 := SkipFinished(bs, top);
    if Advance(m.exp) == [] {
      bs' := [];
    } else {
      bs' := MatchFirst(c, m, bs1, top, w, rest);
    }
  }

  lemma MatchFirst(c: Config, m: Match, bs: seq<Block>, top: nat, w: Write, rest: seq<Write>)
    returns (bs': seq<Block>)
    requires c.ramBytes <= |m.ram| && Lined(bs, top) && Advance(m.exp) == Advance(Entries(bs))
    requires bs != [] && !AllDone(bs[0].evs) && Left(bs) <= [w] + rest
    ensures var r := MatchWrite(c, m, w);
            && r.ok && Lined(bs', top) && Advance(r.m.exp) == Advance(Entries(bs')) && r.m.ram == m.ram
            && r.m.dut == m.dut && Left(bs) == [w] + Left(bs')
  {
    var b, q := bs[0], Entries(bs[1..]);
    BlockEmpty(b);
    assert b.left[0] == Left(bs)[0] == ([w] + rest)[0] == w;
    var b' := MatchInBlock(c, m, b, q);
    bs' := [b'] + bs[1..];
    AdvanceTwice(b'.evs + q);
    UseOne(bs, b', bs', top);
  }

  lemma UseOne(bs: seq<Block>, b: Block, bs': seq<Block>, top: nat)
    requires Lined(bs, top) && bs != [] && bs[0].left != [] && bs' == [b] + bs[1..]
    requires BlockOk(b) && b.id == bs[0].id && b.left == bs[0].left[1..]
    ensures Lined(bs', top) && Entries(bs') == b.evs + Entries(bs[1..])
    ensures Left(bs) == [bs[0].left[0]] + Left(bs')
  {
    assert bs'[1..] == bs[1..];
    assert bs[0].left == [bs[0].left[0]] + b.left;
    Assoc([bs[0].left[0]], b.left, Left(bs[1..]));
  }

  // ---- A commit ----

  lemma {:induction false} LinedAppend(bs: seq<Block>, top: nat, b: Block)
    requires Lined(bs, top) && BlockOk(b) && top < b.id
    ensures Lined(bs + [b], b.id)
  {
    if bs == [] {
      assert ([] + [b])[1..] == [];
    } else {
      assert (bs + [b])[1..] == bs[1..] + [b];
      LinedAppend(bs[1..], top, b);
      EntriesAppend(bs[1..], b);
    }
  }

  /** The invariant: what is queued and what is to come of z486's writes is
      what the committed instructions lack, then the later instructions'. */
  ghost predicate Aligned(m: Match, bs: seq<Block>, top: nat, future: seq<Write>, later: seq<Write>) {
    && Lined(bs, top) && Advance(m.exp) == Advance(Entries(bs))
    && (m.dut == [] || AllDone(m.exp))
    && Writes(m.dut) + future == Left(bs) + later
  }

  lemma Peel<T>(x: T, p: seq<T>, q: seq<T>, r: seq<T>)
    requires [x] + p == ([x] + q) + r
    ensures p == q + r
  {
    assert p == ([x] + p)[1..];
    assert (([x] + q) + r)[1..] == q + r;
  }

  /** The next of z486's writes keeps the alignment. */
  lemma AlignedWrite(c: Config, m: Match, bs: seq<Block>, top: nat, w: Write, future: seq<Write>, later: seq<Write>)
    returns (bs': seq<Block>)
    requires c.ramBytes <= |m.ram| && Aligned(m, bs, top, [w] + future, later)
    ensures MatchWrite(c, m, w).ok
    ensures Aligned(MatchWrite(c, m, w).m, bs', top, future, later)
  {
    if AllDone(m.exp) {
      AllDoneAdvance(m.exp);
    } else {
      assert Writes(m.dut) + ([w] + future) == [w] + future;
    }
    bs' := MatchNext(c, m, bs, top, w, future);
    AlignedAfter(m, MatchWrite(c, m, w).m, bs, bs', w, future, later);
  }

  lemma AlignedAfter(m: Match, r: Match, bs: seq<Block>, bs': seq<Block>, w: Write, future: seq<Write>,
                     later: seq<Write>)
    requires Writes(m.dut) + ([w] + future) == Left(bs) + later
    requires if Advance(m.exp) == [] then r.dut == m.dut + [DutEvent(w)] && Left(bs) == [] && bs' == []
             else m.dut == [] && r.dut == [] && Left(bs) == [w] + Left(bs')
    ensures Writes(r.dut) + future == Left(bs') + later
  {
    if Advance(m.exp) == [] {
      assert Writes(r.dut) == Writes(m.dut) + [w];
      Assoc(Writes(m.dut), [w], future);
    } else {
      assert Writes([]) + ([w] + future) == [w] + future;
      Peel(w, future, Left(bs'), later);
      assert Writes(r.dut) + future == future;
    }
  }

  lemma {:induction false} AlignedWrites(c: Config, m: Match, bs: seq<Block>, top: nat, ds: seq<Ev>,
                                         future: seq<Write>, later: seq<Write>)
    returns (bs': seq<Block>)
    requires c.ramBytes <= |m.ram| && Aligned(m, bs, top, Writes(ds) + future, later)
    ensures MatchAll(c, m, ds).ok
    ensures Aligned(MatchAll(c, m, ds).m, bs', top, future, later)
    decreases ds
  {
    if ds == [] {
      assert Writes(ds) + future == future;
      bs' := bs;
    } else {
      var w := Write(ds[0].addr, ds[0].val);
      assert Writes(ds) + future == [w] + (Writes(ds[1..]) + future);
      var bs1 := AlignedWrite(c, m, bs, top, w, Writes(ds[1..]) + future, later);
      bs' := AlignedWrites(c, MatchWrite(c, m, w).m, bs1, top, ds[1..], future, later);
    }
  }

  lemma AlignedStage(m: Match, ram: seq<Byte>, bs: seq<Block>, top: nat, b: Block, future: seq<Write>,
        later: seq<Write>)
    requires Aligned(m, bs, top, future, b.left + later) && BlockOk(b) && top < b.id
    ensures Aligned(Match(m.exp + b.evs, [], ram), bs + [b], b.id, Writes(m.dut) + future, later)
  {
    LinedAppend(bs, top, b);
    EntriesAppend(bs, b);
    AdvanceAppend(m.exp, Entries(bs), b.evs);
    assert Writes([]) + (Writes(m.dut) + future) == Writes(m.dut) + future;
    Assoc(Left(bs), b.left, later);
  }

  lemma Assoc<T>(p: seq<T>, q: seq<T>, r: seq<T>)
    ensures p + (q + r) == (p + q) + r
  {
  }

  lemma AdvanceAppend(p: seq<Ev>, q: seq<Ev>, x: seq<Ev>)
    requires Advance(p) == Advance(q)
    ensures Advance(p + x) == Advance(q + x)
  {
    AdvanceConcat(p, x);
    AdvanceConcat(q, x);
    if AllDone(p) { AllDoneAdvance(p); }
    if AllDone(q) { AllDoneAdvance(q); }
  }

  /** A commit of the next instruction keeps the alignment. */
  lemma AlignedCommit(c: Config, s: Machine, g: Group, fpu: bool, bs: seq<Block>, future: seq<Write>, later: seq<Write>)
    returns (bs': seq<Block>)
    requires Fits(c, s) && SameWrites(g) && Aligned(s.m, bs, s.ninsn, future, g.dut + later)
    ensures var st := Staged(c, s, g.ref, fpu);
            var r := Commit(c, s.m.(ram := st.ram), st.stage, s.ninsn + 1);
            r.ok && Aligned(r.m, bs', s.ninsn + 1, future, later)
  {
    var st := Staged(c, s, g.ref, fpu);
    var b := Block(s.ninsn + 1, Tagged(st.stage, s.ninsn + 1), g.dut);
    forall a
      ensures Values(Undone(b.evs, a)) == Stream(b.left, a)
    {
      StoresStream(c, Stored(s.m.ram, []), g.ref, fpu, a);
      UndoneTagged([], st.stage, s.ninsn + 1, a);
      assert Undone([], a) == [] && Values([]) + Stream(g.ref, a) == Stream(g.ref, a);
    }
    AlignedStage(s.m, st.ram, bs, s.ninsn, b, future, later);
    bs' := AlignedWrites(c, Match(s.m.exp + b.evs, [], st.ram), bs + [b], s.ninsn + 1, s.m.dut, future, later);
  }

  // ---- Whole runs ----

  /** What each side has yet to output completes the other's. */
  predicate OutputsAligned(s: Machine, duts: seq<Write>, refs: seq<Write>) {
    && s.dutIo + duts == s.expIo + refs
    && (s.expIo == [] || s.dutIo == [])
  }

  lemma {:induction false} OutputsFollow(expIo: seq<Write>, dutIo: seq<Write>, ws: seq<Write>,
                                         duts: seq<Write>, refs: seq<Write>)
    requires dutIo + (ws + duts) == expIo + refs && (expIo == [] || dutIo == [])
    ensures var r := MatchAllIo(expIo, dutIo, ws);
            r.ok && r.dutIo + duts == r.expIo + refs && (r.expIo == [] || r.dutIo == [])
    decreases ws
  {
    if ws == [] {
      assert ws + duts == duts;
    } else {
      var rest := ws[1..] + duts;
      assert ws + duts == [ws[0]] + rest;
      if expIo == [] {
        assert dutIo + ([ws[0]] + rest) == (dutIo + [ws[0]]) + rest;
        OutputsFollow([], dutIo + [ws[0]], ws[1..], duts, refs);
      } else {
        assert expIo[0] == (expIo + refs)[0] == ([] + ([ws[0]] + rest))[0];
        assert [] + rest == (expIo + refs)[1..] == expIo[1..] + refs;
        OutputsFollow(expIo[1..], [], ws[1..], duts, refs);
      }
    }
  }

  lemma {:induction false} LeftNothing(bs: seq<Block>, top: nat)
    requires Lined(bs, top) && Left(bs) == []
    ensures Advance(Entries(bs)) == []
  {
    if bs != [] {
      BlockEmpty(bs[0]);
      AdvanceConcat(bs[0].evs, Entries(bs[1..]));
      assert bs[0].left == [] by {
        assert bs[0].left <= Left(bs);
      }
      LeftNothing(bs[1..], top);
    }
  }

  lemma {:induction false} NothingPending(q: seq<Ev>)
    requires Advance(q) == []
    ensures AllDone(q)
  {
    if q != [] {
      NothingPending(q[1..]);
    }
  }

  lemma AlignedEnd(s: Machine, bs: seq<Block>)
    requires Aligned(s.m, bs, s.ninsn, [], []) && OutputsAligned(s, [], [])
    ensures Drained(s)
  {
    assert Writes(s.m.dut) + [] == Writes(s.m.dut) && Left(bs) + [] == Left(bs);
    if s.m.dut != [] {
      AllDoneAdvance(s.m.exp);
      DoneLeft(bs, s.ninsn);
    }
    LeftNothing(bs, s.ninsn);
    NothingPending(s.m.exp);
    assert s.dutIo + [] == s.dutIo && s.expIo + [] == s.expIo;
  }

  lemma {:induction false} DoneLeft(bs: seq<Block>, top: nat)
    requires Lined(bs, top) && Advance(Entries(bs)) == []
    ensures Left(bs) == []
  {
    var r := SkipFinished(bs, top);
  }

  lemma {:induction false} FollowRun(c: Config, s: Machine, evs: seq<Event>, gs: seq<Group>, bs: seq<Block>)
    requires Fits(c, s) && (forall g :: g in gs ==> SameWrites(g))
    requires StepsOf(evs) == seq(|gs|, k requires 0 <= k < |gs| => gs[k].ref)
    requires Aligned(s.m, bs, s.ninsn, DutsOf(s.a20, evs), DutWrites(gs))
    requires OutputsAligned(s, DutOutsOf(evs), OutsOf(evs))
    ensures Run(c, s, evs).Running? && Drained(Run(c, s, evs).s)
    decreases evs
  {
    hide MatchWrite, StoreAll, MatchAll, MatchAllIo, Aligned, Drained, SameWrites;
    if evs == [] {
      AlignedEnd(s, bs);
    } else {
      var e, rest := evs[0], evs[1..];
      Unroll(s.a20, evs);
      match e {
        case Step(stores, outs, fpu) =>
          FirstStep(evs, gs);
          var s', bs' := FollowStep(c, s, e, gs[0], bs, DutsOf(s.a20, rest), DutWrites(gs[1..]),
                                    DutOutsOf(rest), OutsOf(rest));
          FollowRun(c, s', rest, gs[1..], bs');
        case DutWrite(phys, val) =>
          var bs' := AlignedWrite(c, s.m, bs, s.ninsn, Write(PlatformPhys(s.a20, phys), val),
                                  DutsOf(s.a20, rest), DutWrites(gs));
          FollowRun(c, Next(c, s, e).s, rest, gs, bs');
        case DutOut(port, val) =>
          OutputOne(s, Write(port, val), DutOutsOf(rest), OutsOf(rest));
          FollowRun(c, Next(c, s, e).s, rest, gs, bs);
        case _ =>
          OtherAligned(c, s, e, bs, DutsOf(s.a20, evs), DutWrites(gs), DutOutsOf(rest), OutsOf(rest));
          FollowRun(c, Next(c, s, e).s, rest, gs, bs);
      }
    }
  }

  /** What the other bus masters do moves neither side. */
  lemma OtherAligned(c: Config, s: Machine, e: Event, bs: seq<Block>, future: seq<Write>, later: seq<Write>,
                     duts: seq<Write>, refs: seq<Write>)
    requires Fits(c, s) && (e.Dma? || e.Walker? || e.SetA20?)
    requires Aligned(s.m, bs, s.ninsn, future, later) && OutputsAligned(s, duts, refs)
    ensures Next(c, s, e).Running?
    ensures var s' := Next(c, s, e).s;
            && Aligned(s'.m, bs, s'.ninsn, future, later) && OutputsAligned(s', duts, refs)
            && s'.a20 == if e.SetA20? then e.on else s.a20
  {
    hide Lined, Entries, Left, Advance, AllDone, PlatformPhys;
  }

  lemma OutputOne(s: Machine, w: Write, duts: seq<Write>, refs: seq<Write>)
    requires OutputsAligned(s, [w] + duts, refs)
    ensures var r := MatchIo(s.expIo, s.dutIo, w);
            r.ok && r.dutIo + duts == r.expIo + refs && (r.expIo == [] || r.dutIo == [])
  {
    OutputsFollow(s.expIo, s.dutIo, [w], duts, refs);
    assert [w][1..] == [];
    assert MatchAllIo(s.expIo, s.dutIo, [w]) == MatchIo(s.expIo, s.dutIo, w);
  }

  lemma FollowStep(c: Config, s: Machine, e: Event, g: Group, bs: seq<Block>, future: seq<Write>, later: seq<Write>,
                   duts: seq<Write>, refs: seq<Write>)
    returns (s': Machine, bs': seq<Block>)
    requires Fits(c, s) && e.Step? && e.stores == g.ref && SameWrites(g)
    requires Aligned(s.m, bs, s.ninsn, future, g.dut + later) && OutputsAligned(s, duts, e.outs + refs)
    ensures Next(c, s, e) == Running(s') && s'.a20 == s.a20
    ensures Aligned(s'.m, bs', s'.ninsn, future, later) && OutputsAligned(s', duts, refs)
  {
    hide StoreAll, MatchAll, MatchAllIo, Aligned, SameWrites;
    bs' := AlignedCommit(c, s, g, e.fpu, bs, future, later);
    OutputsOfStep(s, e.outs, duts, refs);
    var st := Staged(c, s, e.stores, e.fpu);
    var r := Commit(c, s.m.(ram := st.ram), st.stage, s.ninsn + 1);
    var io := MatchAllIo(s.expIo + e.outs, [], s.dutIo);
    s' := Machine(r.m, io.expIo, io.dutIo, s.a20, s.ninsn + 1);
  }

  lemma FirstStep(evs: seq<Event>, gs: seq<Group>)
    requires evs != [] && evs[0].Step?
    requires StepsOf(evs) == seq(|gs|, k requires 0 <= k < |gs| => gs[k].ref)
    ensures gs != [] && gs[0].ref == evs[0].stores && gs[0] in gs
    ensures StepsOf(evs[1..]) == seq(|gs| - 1, k requires 0 <= k < |gs| - 1 => gs[1..][k].ref)
  {
    assert StepsOf(evs)[0] == evs[0].stores;
    assert StepsOf(evs[1..]) == StepsOf(evs)[1..];
  }

  lemma OutputsOfStep(s: Machine, outs: seq<Write>, duts: seq<Write>, refs: seq<Write>)
    requires OutputsAligned(s, duts, outs + refs)
    ensures var r := MatchAllIo(s.expIo + outs, [], s.dutIo);
            r.ok && r.dutIo + duts == r.expIo + refs && (r.expIo == [] || r.dutIo == [])
  {
    assert s.expIo + (outs + refs) == (s.expIo + outs) + refs;
    assert [] + (s.dutIo + duts) == s.dutIo + duts;
    OutputsFollow(s.expIo + outs, [], s.dutIo, duts, refs);
  }

  /** What one event contributes to each side. */
  lemma Unroll(a20: bool, evs: seq<Event>)
    requires evs != []
    ensures var e, rest := evs[0], evs[1..];
            && (e.DutWrite? ==> DutsOf(a20, evs) == [Write(PlatformPhys(a20, e.phys), e.val)] + DutsOf(a20, rest))
            && (!e.DutWrite? ==> DutsOf(a20, evs) == DutsOf(if e.SetA20? then e.on else a20, rest))
            && (e.DutOut? ==> DutOutsOf(evs) == [Write(e.port, e.val)] + DutOutsOf(rest))
            && (!e.DutOut? ==> DutOutsOf(evs) == DutOutsOf(rest))
            && (e.Step? ==> OutsOf(evs) == e.outs + OutsOf(rest))
            && (!e.Step? ==> OutsOf(evs) == OutsOf(rest) && StepsOf(evs) == StepsOf(rest))
  {
  }

  /** Completeness. Whatever the interleaving, with either side ahead by any
      amount, and whatever the other bus masters write, a z486 that performs
      the reference's writes group by group is accepted, and when both sides
      have finished nothing is left outstanding. */
  lemma FollowersAreAccepted(c: Config, s: Machine, evs: seq<Event>, gs: seq<Group>)
    requires Fits(c, s) && s.m.exp == [] && s.m.dut == [] && s.expIo == [] && s.dutIo == []
    requires Follows(s.a20, evs, gs)
    ensures Run(c, s, evs).Running? && Drained(Run(c, s, evs).s)
  {
    hide Run, Drained, StepsOf, OutsOf, DutOutsOf, DutsOf, DutWrites, SameWrites;
    assert [] + OutsOf(evs) == OutsOf(evs);
    NothingAligned(s.m, s.ninsn, DutWrites(gs));
    FollowRun(c, s, evs, gs, []);
  }

  lemma NothingAligned(m: Match, top: nat, future: seq<Write>)
    requires m.exp == [] && m.dut == []
    ensures Aligned(m, [], top, future, future)
  {
    assert Writes([]) + future == future == Left([]) + future;
  }
}
