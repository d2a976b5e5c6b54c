/** Whole runs of a z486 that performs every write that changes a byte, and
    of those that do not any that it likes. */
module OmittedRuns {
  import opened Platform
  import opened EventQueue
  import opened WriteMatcher
  import opened Outstanding
  import opened MatcherSoundness
  import opened CosimRun
  import opened RunSoundness
  import opened RunTheorems
  import opened MatcherCompleteness
  import opened OmittedWrites

  // ---- z486's writes, labelled ----

  /** z486's writes are labelled with what they stand for: a write of
      instruction `grp` that changes its byte, or (`silent`) one that repeats
      the byte's value, be it the reference's or z486's own. */
  datatype Labelled = Labelled(m: Match, queue: seq<Ev>)

  /** One comparison: the matcher before it, and z486's write. */
  datatype Compared = Compared(m: Match, x: Ev)

  datatype Trace = Trace(cs: seq<Compared>, t: Labelled, ok: bool)

  function Of(x: Ev): Write {
    Write(x.addr, x.val)
  }

  function Compare(c: Config, t: Labelled, x: Ev): (r: Labelled)
    requires c.ramBytes <= |t.m.ram|
    ensures |r.m.ram| == |t.m.ram|
  {
    var m := MatchWrite(c, t.m, Of(x)).m;
    Labelled(m, if m.dut == t.m.dut then t.queue else t.queue + [x])
  }

  /** The comparisons of the writes xs, up to the first that is reported. */
  function CompareAll(c: Config, t: Labelled, xs: seq<Ev>): (r: Trace)
    requires c.ramBytes <= |t.m.ram|
    ensures |r.t.m.ram| == |t.m.ram|
    ensures forall k :: 0 <= k < |r.cs| ==> |r.cs[k].m.ram| == |t.m.ram|
    decreases xs
  {
    if xs == [] then Trace([], t, true)
    else if !MatchWrite(c, t.m, Of(xs[0])).ok then Trace([Compared(t.m, xs[0])], Compare(c, t, xs[0]), false)
    else
      var r := CompareAll(c, Compare(c, t, xs[0]), xs[1..]);
      r.(cs := [Compared(t.m, xs[0])] + r.cs)
  }

  lemma {:induction false} CompareAllMatches(c: Config, t: Labelled, ds: seq<Ev>, xs: seq<Ev>)
    requires c.ramBytes <= |t.m.ram| && Writes(ds) == Writes(xs)
    ensures var r := CompareAll(c, t, xs);
            MatchAll(c, t.m, ds) == Reply(r.t.m, r.ok)
    decreases xs
  {
    if xs != [] {
      assert Writes(ds)[0] == Writes(xs)[0];
      assert Writes(ds[1..]) == Writes(ds)[1..] && Writes(xs[1..]) == Writes(xs)[1..];
      CompareAllMatches(c, Compare(c, t, xs[0]), ds[1..], xs[1..]);
    }
  }

  // ---- The guard ----

  /** A write that changes its byte is compared with its own entry, if the
      first unmatched entry of the byte is no silent one that z486 left out,
      and if, while the oldest instruction does not list the byte, the
      reference's RAM does not hold the value yet. */
  ghost predicate ChangeFits(c: Config, m: Match, w: Write, exp: seq<Ev>)
    requires c.ramBytes <= |m.ram| && exp != []
  {
    var p := FirstPending(exp, w.addr);
    && (p < |exp| ==> !exp[p].silent)
    && (p < GroupLen(exp, exp[0].grp) || !Holds(c, m, w))
  }

  /** A write that changes nothing passes, if it is the oldest instruction's
      silent one; or else if the reference's RAM holds the value, or all that
      is unmatched before the byte's first entry is silent, and so is that. */
  ghost predicate RewriteFits(c: Config, m: Match, w: Write, exp: seq<Ev>)
    requires c.ramBytes <= |m.ram| && exp != []
  {
    var p := FirstPending(exp, w.addr);
    var own := p < |exp| ==> exp[p].silent && exp[p].val == w.val;
    if p < GroupLen(exp, exp[0].grp) then own else Holds(c, m, w) || (Reached(exp, p) && own)
  }

  ghost predicate Fine(c: Config, t: Compared)
    requires c.ramBytes <= |t.m.ram|
  {
    var exp := Advance(t.m.exp);
    exp == [] || (if t.x.silent then RewriteFits(c, t.m, Of(t.x), exp) else ChangeFits(c, t.m, Of(t.x), exp))
  }

  // ---- What goes wrong without being reported ----

  /** The comparison matches one of the reference's changing writes. */
  ghost predicate Takes(c: Config, t: Compared)
    requires c.ramBytes <= |t.m.ram|
  {
    |Owing(MatchWrite(c, t.m, Of(t.x)).m.exp, t.x.addr)| < |Owing(t.m.exp, t.x.addr)|
  }

  /** A changing write of z486 is accepted as a repetition. */
  ghost predicate Lost(c: Config, t: Compared)
    requires c.ramBytes <= |t.m.ram|
  {
    var r := MatchWrite(c, t.m, Of(t.x));
    r.ok && !t.x.silent && r.m.dut == t.m.dut && !Takes(c, t)
  }

  /** A repetition is accepted as a changing write. */
  ghost predicate Stolen(c: Config, t: Compared)
    requires c.ramBytes <= |t.m.ram|
  {
    MatchWrite(c, t.m, Of(t.x)).ok && t.x.silent && Takes(c, t)
  }

  lemma OwingSame(q: seq<Ev>, x: seq<Ev>, r: seq<Ev>, a: int)
    requires Same(q, x, r)
    ensures Owing(q, a) == Owing(x, a) + Owing(r, a)
  {
    forall g: nat
      ensures Owing(q, a)[g] == Owing(x, a)[g] + Owing(r, a)[g]
    {
      OwingTodo(q, g, a);
      OwingTodo(x, g, a);
      OwingTodo(r, g, a);
    }
  }

  /** What an accepted comparison does to the writes outstanding. */
  ghost predicate Moves(c: Config, t: Compared, took: seq<Ev>)
    requires c.ramBytes <= |t.m.ram|
  {
    var r := MatchWrite(c, t.m, Of(t.x)).m;
    && |took| <= 1 && (took != [] ==> took[0].addr == t.x.addr && Changes(took[0]))
    && Same(t.m.exp, took, r.exp)
    && (r.dut == t.m.dut || (r.dut == t.m.dut + [DutEvent(Of(t.x))] && took == []))
  }

  lemma TakesIff(c: Config, t: Compared, took: seq<Ev>)
    requires c.ramBytes <= |t.m.ram| && Moves(c, t, took)
    ensures Takes(c, t) <==> took != []
    ensures var r := MatchWrite(c, t.m, Of(t.x)).m;
            forall a :: |Owing(t.m.exp, a)| == |Owing(r.exp, a)| + (if took != [] && a == t.x.addr then 1 else 0)
  {
    var r := MatchWrite(c, t.m, Of(t.x)).m;
    forall a
      ensures |Owing(t.m.exp, a)| == |Owing(r.exp, a)| + (if took != [] && a == t.x.addr then 1 else 0)
    {
      OwingSame(t.m.exp, took, r.exp, a);
      if took != [] {
        assert took[1..] == [];
      }
    }
  }

  /** The entry a comparison takes: none, or the first of its byte. */
  ghost function TakenBy(c: Config, t: Compared): (took: seq<Ev>)
    requires c.ramBytes <= |t.m.ram|
  {
    var exp := Advance(t.m.exp);
    if exp == [] || !Finds(c, t.m, Of(t.x), exp) then []
    else
      var p := FirstPending(exp, t.x.addr);
      if p < |exp| && !exp[p].silent then [exp[p]] else []
  }

  lemma ComparisonMoves(c: Config, t: Compared, top: nat)
    requires c.ramBytes <= |t.m.ram| && !c.lenient && Ordered(t.m.exp, top)
    requires MatchWrite(c, t.m, Of(t.x)).ok
    ensures Moves(c, t, TakenBy(c, t))
  {
    hide Ordered, Reached, Todo;
    var exp, w := Advance(t.m.exp), Of(t.x);
    var r := MatchWrite(c, t.m, w).m;
    SameAdvance(t.m.exp);
    if exp == [] {
      assert r.exp == [];
    } else {
      Compares(c, t.m, w, top);
      SameTrans(t.m.exp, exp);
      var p := FirstPending(exp, w.addr);
      if Finds(c, t.m, w, exp) && p < |exp| && exp[p].silent {
        SilentTaken(exp[p]);
        SameTook(t.m.exp, [exp[p]], [], r.exp);
      }
    }
  }

  lemma SilentTaken(e: Ev)
    requires e.silent
    ensures forall g, a :: Todo([e], g, a) == Todo([], g, a)
  {
    assert [e][1..] == [];
  }

  lemma SameTook(q: seq<Ev>, x: seq<Ev>, y: seq<Ev>, r: seq<Ev>)
    requires Same(q, x, r) && forall g, a :: Todo(x, g, a) == Todo(y, g, a)
    ensures Same(q, y, r)
  {
    hide Todo;
  }

  // ---- The account ----

  ghost predicate InOrder(ls: seq<Ev>) {
    && (forall i :: 0 <= i < |ls| ==> !ls[i].done)
    && (forall i, j :: 0 <= i < j < |ls| && !ls[i].silent && !ls[j].silent ==> ls[i].grp <= ls[j].grp)
  }

  ghost predicate Balanced(exp: seq<Ev>, later: seq<Ev>, ls: seq<Ev>) {
    forall g, a :: Todo(exp, g, a) + Todo(later, g, a) == Todo(ls, g, a)
  }

  /** While nothing has gone wrong: the changing writes the reference has
      outstanding, and those it has yet to make, are those z486 has queued and
      has yet to make, instruction by instruction and byte by byte. */
  ghost predicate InStep(t: Labelled, ls: seq<Ev>, later: seq<Ev>, top: nat) {
    && Ordered(t.m.exp, top) && (forall e :: e in later ==> e.grp > top)
    && (t.m.dut == [] || AllDone(t.m.exp)) && Writes(t.m.dut) == Writes(t.queue)
    && InOrder(t.queue + ls)
    && Balanced(t.m.exp, later, t.queue + ls)
  }

  /** z486's next changing write: its instruction is reached, and the byte's
      first entry, if it changes the byte, is the write's own. */
  lemma NextChange(exp: seq<Ev>, later: seq<Ev>, x: Ev, rest: seq<Ev>, top: nat)
    requires Ordered(exp, top) && (forall e :: e in later ==> e.grp > top)
    requires InOrder([x] + rest) && !x.silent && Balanced(exp, later, [x] + rest)
    ensures var p := FirstPending(exp, x.addr);
            && Reached(exp, p)
            && (p < |exp| && !exp[p].silent ==> exp[p].val == x.val && exp[p].grp == x.grp)
  {
    hide Ordered, InOrder, Balanced;
    var p := FirstPending(exp, x.addr);
    forall k | 0 <= k < p && k < |exp| && Changes(exp[k])
      ensures p < |exp| && exp[k].grp == exp[p].grp
    {
      var j := OwnEntry(exp, later, x, rest, top, k);
      assert p <= j;
      OrderedAt(exp, top, k, p);
      OrderedAt(exp, top, p, j);
    }
    if p < |exp| && !exp[p].silent {
      var j := OwnEntry(exp, later, x, rest, top, p);
      assert p <= j;
      OrderedAt(exp, top, p, j);
      FirstValue(exp, later, x, rest, p);
    }
  }

  /** If instruction h = exp[k].grp has a change outstanding, so has the one
      of z486's next write x, at x's byte, and it is not a later one. */
  lemma OwnEntry(exp: seq<Ev>, later: seq<Ev>, x: Ev, rest: seq<Ev>, top: nat, k: nat) returns (j: nat)
    requires Ordered(exp, top) && (forall e :: e in later ==> e.grp > top)
    requires InOrder([x] + rest) && !x.silent && Balanced(exp, later, [x] + rest)
    requires k < |exp| && Changes(exp[k])
    ensures j < |exp| && Changes(exp[j]) && exp[j].addr == x.addr && exp[j].grp == x.grp <= exp[k].grp
    ensures !x.done
  {
    hide Ordered, Todo;
    var ls, h := [x] + rest, exp[k].grp;
    TodoFrom(exp, k);
    assert Todo(ls, h, exp[k].addr) == Todo(exp, h, exp[k].addr) + Todo(later, h, exp[k].addr);
    var i := TodoIndex(ls, h, exp[k].addr);
    assert ls[0] == x && x.grp <= h;
    OrderedAt(exp, top, k, k);
    TodoFrom(ls, 0);
    assert Todo(ls, x.grp, x.addr) == Todo(exp, x.grp, x.addr) + Todo(later, x.grp, x.addr);
    NothingLater(later, x.grp, x.addr, top);
    j := TodoIndex(exp, x.grp, x.addr);
  }

  lemma {:induction false} NothingLater(later: seq<Ev>, g: nat, a: int, top: nat)
    requires (forall e :: e in later ==> e.grp > top) && g <= top
    ensures Todo(later, g, a) == []
  {
    if later != [] {
      assert later[0] in later;
      NothingLater(later[1..], g, a, top);
    }
  }

  lemma FirstValue(exp: seq<Ev>, later: seq<Ev>, x: Ev, rest: seq<Ev>, p: nat)
    requires Balanced(exp, later, [x] + rest) && Changes(x)
    requires p < |exp| && p == FirstPending(exp, x.addr) && Changes(exp[p]) && exp[p].grp == x.grp
    ensures exp[p].val == x.val
  {
    hide Todo;
    TodoMark(exp, p, x.grp, x.addr);
    TodoOne(exp[p]);
    TodoConcat([x], rest, x.grp, x.addr);
    TodoOne(x);
    assert Todo(exp, x.grp, x.addr) + Todo(later, x.grp, x.addr) == Todo([x] + rest, x.grp, x.addr);
    assert Todo(exp, x.grp, x.addr)[0] == exp[p].val;
    assert Todo([x] + rest, x.grp, x.addr)[0] == x.val;
  }

  lemma TodoOne(e: Ev)
    ensures forall g, a :: Todo([e], g, a) == if Changes(e) && e.grp == g && e.addr == a then [e.val] else []
  {
    assert [e][1..] == [];
  }

  // ---- One comparison ----

  ghost predicate Clean(c: Config, t: Compared)
    requires c.ramBytes <= |t.m.ram|
  {
    MatchWrite(c, t.m, Of(t.x)).ok && !Lost(c, t) && !Stolen(c, t)
  }

  lemma RewriteIff(c: Config, t: Compared, top: nat)
    requires c.ramBytes <= |t.m.ram| && !c.lenient && Ordered(t.m.exp, top) && t.x.silent
    ensures Fine(c, t) <==> Clean(c, t)
  {
    hide Ordered, Reached, Advance, FirstPending, GroupLen, Takes;
    var exp, w := Advance(t.m.exp), Of(t.x);
    if MatchWrite(c, t.m, w).ok {
      ComparisonMoves(c, t, top);
      TakesIff(c, t, TakenBy(c, t));
    }
    if exp != [] {
      Compares(c, t.m, w, top);
    }
  }

  /** With the account kept so far, a changing write is compared with its own
      entry exactly under the guard. */
  lemma ChangeIff(c: Config, t: Labelled, x: Ev, rest: seq<Ev>, later: seq<Ev>, top: nat)
    requires c.ramBytes <= |t.m.ram| && !c.lenient && InStep(t, [x] + rest, later, top) && !x.silent
    ensures Fine(c, Compared(t.m, x)) <==> Clean(c, Compared(t.m, x))
  {
    hide Ordered, Reached, Advance, FirstPending, GroupLen, Takes, Balanced, InOrder, Todo, AllDone;
    var exp, w, d := Advance(t.m.exp), Of(x), Compared(t.m, x);
    if MatchWrite(c, t.m, w).ok {
      ComparisonMoves(c, d, top);
      TakesIff(c, d, TakenBy(c, d));
    }
    if exp != [] {
      Unfinished(t, [x] + rest, later, top);
      NextChange(exp, later, x, rest, top);
      Compares(c, t.m, w, top);
    }
  }

  /** With an instruction of the reference unfinished no write of z486's is
      queued, and the account is that of the unmatched entries. */
  lemma Unfinished(t: Labelled, ls: seq<Ev>, later: seq<Ev>, top: nat)
    requires InStep(t, ls, later, top) && Advance(t.m.exp) != []
    ensures t.m.dut == [] && t.queue == [] && InOrder(ls)
    ensures Ordered(Advance(t.m.exp), top) && Balanced(Advance(t.m.exp), later, ls)
  {
    if AllDone(t.m.exp) {
      AllDoneAdvance(t.m.exp);
    }
    assert |t.queue| == |Writes(t.m.dut)| == 0;
    assert t.queue + ls == ls;
    AdvanceOrdered(t.m.exp, top);
    forall g, a
      ensures Todo(Advance(t.m.exp), g, a) + Todo(later, g, a) == Todo(ls, g, a)
    {
      TodoAdvance(t.m.exp, g, a);
    }
  }

  lemma FineIff(c: Config, t: Labelled, x: Ev, rest: seq<Ev>, later: seq<Ev>, top: nat)
    requires c.ramBytes <= |t.m.ram| && !c.lenient && InStep(t, [x] + rest, later, top)
    ensures Fine(c, Compared(t.m, x)) <==> Clean(c, Compared(t.m, x))
  {
    hide *;
    if x.silent {
      InStepOrdered(t, [x] + rest, later, top);
      RewriteIff(c, Compared(t.m, x), top);
    } else {
      ChangeIff(c, t, x, rest, later, top);
    }
  }

  lemma InStepOrdered(t: Labelled, ls: seq<Ev>, later: seq<Ev>, top: nat)
    requires InStep(t, ls, later, top)
    ensures Ordered(t.m.exp, top) && (forall e :: e in later ==> e.grp > top)
    ensures t.m.dut == [] || AllDone(t.m.exp)
    ensures Writes(t.m.dut) == Writes(t.queue) && |t.queue| == |t.m.dut|
  {
    assert |Writes(t.m.dut)| == |Writes(t.queue)|;
  }

  /** A comparison that goes right keeps the account. */
  lemma CleanKeeps(c: Config, t: Labelled, x: Ev, rest: seq<Ev>, later: seq<Ev>, top: nat)
    requires c.ramBytes <= |t.m.ram| && !c.lenient && InStep(t, [x] + rest, later, top)
    requires Clean(c, Compared(t.m, x))
    ensures InStep(Compare(c, t, x), rest, later, top)
    ensures Compare(c, t, x).m.ram == t.m.ram
  {
    hide *;
    InStepOrdered(t, [x] + rest, later, top);
    CleanOk(c, Compared(t.m, x));
    ComparesInOrder(c, t.m, Of(x), top);
    CompareIs(c, t, x);
    ComparisonMoves(c, Compared(t.m, x), top);
    MatchWriteLead(c, t.m, Of(x));
    CleanMoves(c, t, x, rest, later, top);
    if MatchWrite(c, t.m, Of(x)).m.dut == t.m.dut {
      ConsumedKeeps(c, t, x, rest, later, top);
    } else {
      QueuedKeeps(c, t, x, rest, later, top);
    }
  }

  lemma CleanOk(c: Config, d: Compared)
    requires c.ramBytes <= |d.m.ram| && Clean(c, d)
    ensures MatchWrite(c, d.m, Of(d.x)).ok && !Lost(c, d) && !Stolen(c, d)
  {
  }

  lemma CompareIs(c: Config, t: Labelled, x: Ev)
    requires c.ramBytes <= |t.m.ram|
    ensures var m := MatchWrite(c, t.m, Of(x)).m;
            Compare(c, t, x) == Labelled(m, if m.dut == t.m.dut then t.queue else t.queue + [x])
  {
  }

  /** What it took is x's own entry, or nothing if x changes nothing or is
      queued. */
  lemma CleanMoves(c: Config, t: Labelled, x: Ev, rest: seq<Ev>, later: seq<Ev>, top: nat)
    requires c.ramBytes <= |t.m.ram| && !c.lenient && InStep(t, [x] + rest, later, top)
    requires Clean(c, Compared(t.m, x))
    ensures var r := MatchWrite(c, t.m, Of(x)).m;
            if r.dut == t.m.dut then Same(t.m.exp, [x], r.exp)
            else r.dut == t.m.dut + [DutEvent(Of(x))] && Same(t.m.exp, [], r.exp)
  {
    hide Ordered, Advance, FirstPending, Finds, Takes, Balanced, InOrder, Todo, AllDone, GroupLen, MatchWrite, Same;
    var d := Compared(t.m, x);
    var r, took := MatchWrite(c, t.m, Of(x)).m, TakenBy(c, d);
    ComparisonMoves(c, d, top);
    TakesIff(c, d, took);
    if x.silent {
      assert took == [];
      SilentTaken(x);
      if r.dut == t.m.dut {
        SameTook(t.m.exp, [], [x], r.exp);
      }
    } else if took != [] {
      Unfinished(t, [x] + rest, later, top);
      NextChange(Advance(t.m.exp), later, x, rest, top);
      TodoOne(x);
      TodoOne(took[0]);
      ChangesUndone(x, rest);
      SameTook(t.m.exp, took, [x], r.exp);
    }
  }

  lemma ChangesUndone(x: Ev, rest: seq<Ev>)
    requires InOrder([x] + rest)
    ensures !x.done && InOrder(rest)
  {
    var ls := [x] + rest;
    assert ls[0] == x && ls[1..] == rest;
    assert forall i :: 0 <= i < |rest| ==> ls[i + 1] == rest[i];
  }

  lemma NothingTodo(g: nat, a: int)
    ensures Todo([], g, a) == []
  {
  }

  lemma DoneQueues(c: Config, m: Match, w: Write)
    requires c.ramBytes <= |m.ram| && AllDone(m.exp)
    ensures |MatchWrite(c, m, w).m.dut| == |m.dut| + 1
  {
    AllDoneAdvance(m.exp);
  }

  lemma ConsumedKeeps(c: Config, t: Labelled, x: Ev, rest: seq<Ev>, later: seq<Ev>, top: nat)
    requires c.ramBytes <= |t.m.ram| && InStep(t, [x] + rest, later, top)
    requires var r := MatchWrite(c, t.m, Of(x)).m;
             r.dut == t.m.dut && Same(t.m.exp, [x], r.exp) && Ordered(r.exp, top)
    ensures InStep(Labelled(MatchWrite(c, t.m, Of(x)).m, t.queue), rest, later, top)
  {
    hide Todo, Ordered, InOrder;
    var r := MatchWrite(c, t.m, Of(x)).m;
    if AllDone(t.m.exp) {
      DoneQueues(c, t.m, Of(x));
    }
    InStepOrdered(t, [x] + rest, later, top);
    assert t.queue == [] && t.queue + ([x] + rest) == [x] + rest && t.queue + rest == rest;
    ChangesUndone(x, rest);
    forall g, a
      ensures Todo(r.exp, g, a) + Todo(later, g, a) == Todo(rest, g, a)
    {
      assert Todo(t.m.exp, g, a) + Todo(later, g, a) == Todo([x] + rest, g, a);
      TodoConcat([x], rest, g, a);
      Cancel(Todo([x], g, a), Todo(r.exp, g, a), Todo(later, g, a), Todo(rest, g, a));
    }
  }

  lemma Cancel<T>(x: seq<T>, p: seq<T>, q: seq<T>, r: seq<T>)
    requires (x + p) + q == x + r
    ensures p + q == r
  {
    assert p + q == ((x + p) + q)[|x|..];
    assert r == (x + r)[|x|..];
  }

  lemma QueuedKeeps(c: Config, t: Labelled, x: Ev, rest: seq<Ev>, later: seq<Ev>, top: nat)
    requires c.ramBytes <= |t.m.ram| && InStep(t, [x] + rest, later, top)
    requires var r := MatchWrite(c, t.m, Of(x)).m;
             r.dut == t.m.dut + [DutEvent(Of(x))] && Same(t.m.exp, [], r.exp) && Ordered(r.exp, top) && r.exp == []
    ensures InStep(Labelled(MatchWrite(c, t.m, Of(x)).m, t.queue + [x]), rest, later, top)
  {
    hide Todo, Ordered, InOrder, MatchWrite, PutAll;
    var r := MatchWrite(c, t.m, Of(x)).m;
    assert t.queue + ([x] + rest) == (t.queue + [x]) + rest;
    assert Writes(r.dut) == Writes(t.m.dut) + [Of(x)] == Writes(t.queue) + [Of(x)] == Writes(t.queue + [x]);
    forall g, a
      ensures Todo(r.exp, g, a) + Todo(later, g, a) == Todo((t.queue + [x]) + rest, g, a)
    {
      NothingTodo(g, a);
      assert Todo(t.m.exp, g, a) == Todo([], g, a) + Todo(r.exp, g, a) == [];
      assert Todo(t.m.exp, g, a) + Todo(later, g, a) == Todo(t.queue + ([x] + rest), g, a);
    }
  }

  // ---- Whole runs ----

  ghost predicate AllFine(c: Config, cs: seq<Compared>) {
    forall k :: 0 <= k < |cs| ==> c.ramBytes <= |cs[k].m.ram| && Fine(c, cs[k])
  }

  ghost predicate AllClean(c: Config, cs: seq<Compared>) {
    forall k :: 0 <= k < |cs| ==> c.ramBytes <= |cs[k].m.ram| && Clean(c, cs[k])
  }

  lemma AllSplit(c: Config, p: seq<Compared>, q: seq<Compared>)
    ensures AllFine(c, p + q) <==> AllFine(c, p) && AllFine(c, q)
    ensures AllClean(c, p + q) <==> AllClean(c, p) && AllClean(c, q)
  {
    hide Fine, Clean;
    assert forall k :: 0 <= k < |q| ==> (p + q)[|p| + k] == q[k];
    assert forall k :: 0 <= k < |p| ==> (p + q)[k] == p[k];
  }

  lemma AllOne(c: Config, d: Compared)
    requires c.ramBytes <= |d.m.ram|
    ensures AllFine(c, [d]) <==> Fine(c, d)
    ensures AllClean(c, [d]) <==> Clean(c, d)
  {
    assert [d][0] == d;
  }

  /** z486's early writes, compared when the reference has caught up. */
  lemma {:induction false} ReplayIff(c: Config, t: Labelled, xs: seq<Ev>, rest: seq<Ev>, later: seq<Ev>, top: nat)
    requires c.ramBytes <= |t.m.ram| && !c.lenient && InStep(t, xs + rest, later, top)
    ensures var r := CompareAll(c, t, xs);
            && (AllFine(c, r.cs) <==> AllClean(c, r.cs))
            && (AllClean(c, r.cs) ==> r.ok && InStep(r.t, rest, later, top) && r.t.m.ram == t.m.ram)
    decreases xs
  {
    hide InStep, Fine, Clean, AllFine, AllClean, MatchWrite;
    if xs == [] {
      assert xs + rest == rest;
      NoneWrong(c);
    } else {
      var x := xs[0];
      assert xs + rest == [x] + (xs[1..] + rest);
      FineIff(c, t, x, xs[1..] + rest, later, top);
      AllOne(c, Compared(t.m, x));
      var r := CompareAll(c, Compare(c, t, x), xs[1..]);
      AllSplit(c, [Compared(t.m, x)], r.cs);
      if Clean(c, Compared(t.m, x)) {
        CleanOk(c, Compared(t.m, x));
        CleanKeeps(c, t, x, xs[1..] + rest, later, top);
        ReplayIff(c, Compare(c, t, x), xs[1..], rest, later, top);
      }
    }
  }

  lemma NoneWrong(c: Config)
    ensures AllFine(c, []) && AllClean(c, [])
  {
  }

  /** The reference's staged writes over a run, numbered by instruction: a
      write is silent if RAM has its value when the reference makes it. */
  function StagedBy(c: Config, ram: seq<Byte>, a20: bool, n: nat, evs: seq<Event>): seq<Ev>
    requires 0 < |ram| && c.ramBytes <= |ram|
    decreases evs
  {
    if evs == [] then []
    else
      match evs[0]
      case Step(stores, _, fpu) =>
        var st := StoreAll(c, Stored(ram, []), stores, fpu);
        Tagged(st.stage, n + 1) + StagedBy(c, st.ram, a20, n + 1, evs[1..])
      case Dma(phys, val) => StagedBy(c, Poke(c, ram, phys, val), a20, n, evs[1..])
      case Walker(phys, val) => StagedBy(c, Poke(c, ram, PlatformPhys(a20, phys), val), a20, n, evs[1..])
      case SetA20(on) => StagedBy(c, ram, on, n, evs[1..])
      case _ => StagedBy(c, ram, a20, n, evs[1..])
  }

  datatype RunTrace = RunTrace(cs: seq<Compared>, queue: seq<Ev>)

  /** The comparisons of a run, with z486's writes labelled: those queued,
      then those to come. */
  function CompareRun(c: Config, s: Machine, queue: seq<Ev>, future: seq<Ev>, evs: seq<Event>): (r: RunTrace)
    requires Fits(c, s)
    ensures forall k :: 0 <= k < |r.cs| ==> |r.cs[k].m.ram| == |s.m.ram|
    decreases evs
  {
    if evs == [] then RunTrace([], queue)
    else
      var next := Next(c, s, evs[0]);
      match evs[0]
      case Step(stores, _, fpu) =>
        var t := CompareAll(c, Labelled(Committed(c, s, stores, fpu), []), queue);
        if next.Diverged? then RunTrace(t.cs, t.t.queue)
        else
          var r := CompareRun(c, next.s, t.t.queue, future, evs[1..]);
          r.(cs := t.cs + r.cs)
      case DutWrite(_, _) =>
        if future == [] then RunTrace([], queue)
        else
          var t := Compare(c, Labelled(s.m, queue), future[0]);
          if next.Diverged? then RunTrace([Compared(s.m, future[0])], t.queue)
          else
            var r := CompareRun(c, next.s, t.queue, future[1..], evs[1..]);
            r.(cs := [Compared(s.m, future[0])] + r.cs)
      case _ => if next.Diverged? then RunTrace([], queue) else CompareRun(c, next.s, queue, future, evs[1..])
  }

  /** The matcher once an instruction's writes have joined the queue. */
  function Committed(c: Config, s: Machine, stores: seq<Write>, fpu: bool): (m: Match)
    requires Fits(c, s)
    ensures |m.ram| == |s.m.ram|
  {
    var st := Staged(c, s, stores, fpu);
    Match(s.m.exp + Tagged(st.stage, s.ninsn + 1), [], st.ram)
  }

  /** z486 performs the writes that change a byte, instruction by instruction
      and each byte's in their order; and anything else, labelled silent, in
      between. It outputs what the reference outputs. */
  ghost predicate Performs(c: Config, s: Machine, evs: seq<Event>, ls: seq<Ev>)
    requires Fits(c, s)
  {
    && Writes(ls) == DutsOf(s.a20, evs) && InOrder(ls)
    && (forall g, a :: Todo(ls, g, a) == Todo(StagedBy(c, s.m.ram, s.a20, s.ninsn, evs), g, a))
    && DutOutsOf(evs) == OutsOf(evs)
  }

  /** Nothing changing is outstanding on either side. */
  ghost predicate Spent(m: Match, queue: seq<Ev>) {
    OnlySilent(m.exp) && OnlySilent(queue)
  }

  ghost predicate Idle(s: Machine) {
    s.m.exp == [] && s.m.dut == [] && s.expIo == [] && s.dutIo == []
  }

  /** The account at a moment of a run with the events evs to come. */
  ghost predicate Going(c: Config, s: Machine, queue: seq<Ev>, future: seq<Ev>, evs: seq<Event>)
    requires Fits(c, s)
  {
    && InStep(Labelled(s.m, queue), future, StagedBy(c, s.m.ram, s.a20, s.ninsn, evs), s.ninsn)
    && Writes(future) == DutsOf(s.a20, evs)
    && OutputsAligned(s, DutOutsOf(evs), OutsOf(evs))
  }

  lemma {:induction false} StagedLater(c: Config, ram: seq<Byte>, a20: bool, n: nat, evs: seq<Event>)
    requires 0 < |ram| && c.ramBytes <= |ram|
    ensures forall e :: e in StagedBy(c, ram, a20, n, evs) ==> e.grp > n
    decreases evs
  {
    if evs != [] {
      match evs[0]
      case Step(stores, _, fpu) =>
        StagedLater(c, StoreAll(c, Stored(ram, []), stores, fpu).ram, a20, n + 1, evs[1..]);
      case Dma(phys, val) => StagedLater(c, Poke(c, ram, phys, val), a20, n, evs[1..]);
      case Walker(phys, val) => StagedLater(c, Poke(c, ram, PlatformPhys(a20, phys), val), a20, n, evs[1..]);
      case SetA20(on) => StagedLater(c, ram, on, n, evs[1..]);
      case _ => StagedLater(c, ram, a20, n, evs[1..]);
    }
  }

  /** An instruction's writes join the queue, and all that z486 has queued is
      to be compared again. */
  lemma StageInStep(c: Config, s: Machine, e: Event, queue: seq<Ev>, future: seq<Ev>, evs: seq<Event>)
    requires Fits(c, s) && evs != [] && e == evs[0] && e.Step?
    requires Going(c, s, queue, future, evs)
    ensures var st := Staged(c, s, e.stores, e.fpu);
            InStep(Labelled(Committed(c, s, e.stores, e.fpu), []), queue + future,
                   StagedBy(c, st.ram, s.a20, s.ninsn + 1, evs[1..]), s.ninsn + 1)
  {
    hide StoreAll, InOrder, Todo, Ordered, Balanced, Writes, Tagged, StagedBy, AllDone;
    var st := Staged(c, s, e.stores, e.fpu);
    var added, later := Tagged(st.stage, s.ninsn + 1), StagedBy(c, st.ram, s.a20, s.ninsn + 1, evs[1..]);
    StagedFirst(c, s, evs);
    StagedLater(c, st.ram, s.a20, s.ninsn + 1, evs[1..]);
    OrderedJoin(s.m.exp, added, s.ninsn);
    assert [] + (queue + future) == queue + future;
    BalancedJoin(s.m.exp, added, later, queue + future);
  }

  lemma StagedFirst(c: Config, s: Machine, evs: seq<Event>)
    requires Fits(c, s) && evs != [] && evs[0].Step?
    ensures var st := Staged(c, s, evs[0].stores, evs[0].fpu);
            StagedBy(c, s.m.ram, s.a20, s.ninsn, evs)
            == Tagged(st.stage, s.ninsn + 1) + StagedBy(c, st.ram, s.a20, s.ninsn + 1, evs[1..])
  {
    hide StoreAll, Tagged;
  }

  lemma OrderedJoin(p: seq<Ev>, q: seq<Ev>, top: nat)
    requires Ordered(p, top) && forall k :: 0 <= k < |q| ==> q[k].grp == top + 1
    ensures Ordered(p + q, top + 1)
  {
  }

  lemma BalancedJoin(exp: seq<Ev>, added: seq<Ev>, later: seq<Ev>, ls: seq<Ev>)
    requires Balanced(exp, added + later, ls)
    ensures Balanced(exp + added, later, ls)
  {
    hide Todo;
    forall g, a
      ensures Todo(exp + added, g, a) + Todo(later, g, a) == Todo(ls, g, a)
    {
      TodoConcat(exp, added, g, a);
      TodoConcat(added, later, g, a);
      Assoc(Todo(exp, g, a), Todo(added, g, a), Todo(later, g, a));
    }
  }

  /** A step of the reference: accepted exactly if z486's queued writes are,
      and then the account goes on. */
  lemma StepGoes(c: Config, s: Machine, queue: seq<Ev>, future: seq<Ev>, evs: seq<Event>)
    requires Fits(c, s) && !c.lenient && evs != [] && evs[0].Step? && Going(c, s, queue, future, evs)
    ensures var t := CompareAll(c, Labelled(Committed(c, s, evs[0].stores, evs[0].fpu), []), queue);
            var next := Next(c, s, evs[0]);
            && (AllFine(c, t.cs) <==> AllClean(c, t.cs))
            && (AllClean(c, t.cs) ==>
                  next.Running? && Fits(c, next.s) && Going(c, next.s, t.t.queue, future, evs[1..]))
  {
    hide InStep, StoreAll, MatchAll, MatchAllIo, StagedBy, CompareAll, OutputsAligned, AllFine, AllClean;
    var e := evs[0];
    var st, m := Staged(c, s, e.stores, e.fpu), Committed(c, s, e.stores, e.fpu);
    var later := StagedBy(c, st.ram, s.a20, s.ninsn + 1, evs[1..]);
    StageInStep(c, s, e, queue, future, evs);
    ReplayIff(c, Labelled(m, []), queue, future, later, s.ninsn + 1);
    InStepOrdered(Labelled(s.m, queue), future, StagedBy(c, s.m.ram, s.a20, s.ninsn, evs), s.ninsn);
    CompareAllMatches(c, Labelled(m, []), s.m.dut, queue);
    Unroll(s.a20, evs);
    OutputsOfStep(s, e.outs, DutOutsOf(evs[1..]), OutsOf(evs[1..]));
    var t := CompareAll(c, Labelled(m, []), queue);
    if AllClean(c, t.cs) {
      NextStep(c, s, e, t.t.m);
      var s' := Next(c, s, e).s;
      OutputsNow(s', DutOutsOf(evs[1..]), OutsOf(evs[1..]));
      assert Labelled(s'.m, t.t.queue) == t.t;
    }
  }

  lemma OutputsNow(s: Machine, duts: seq<Write>, refs: seq<Write>)
    requires s.dutIo + duts == s.expIo + refs && (s.expIo == [] || s.dutIo == [])
    ensures OutputsAligned(s, duts, refs)
  {
  }

  lemma NextStep(c: Config, s: Machine, e: Event, m: Match)
    requires Fits(c, s) && e.Step? && MatchAll(c, Committed(c, s, e.stores, e.fpu), s.m.dut) == Reply(m, true)
    requires MatchAllIo(s.expIo + e.outs, [], s.dutIo).ok
    ensures var io := MatchAllIo(s.expIo + e.outs, [], s.dutIo);
            Next(c, s, e) == Running(Machine(m, io.expIo, io.dutIo, s.a20, s.ninsn + 1))
  {
  }

  /** A write of z486: the same. */
  lemma DutWriteGoes(c: Config, s: Machine, queue: seq<Ev>, future: seq<Ev>, evs: seq<Event>)
    requires Fits(c, s) && !c.lenient && evs != [] && evs[0].DutWrite? && Going(c, s, queue, future, evs)
    ensures future != []
    ensures var d, t, next := Compared(s.m, future[0]), Compare(c, Labelled(s.m, queue), future[0]), Next(c, s, evs[0]);
            && (Fine(c, d) <==> Clean(c, d))
            && (Clean(c, d) ==>
                  next.Running? && Fits(c, next.s) && Going(c, next.s, t.queue, future[1..], evs[1..]))
  {
    hide InStep, MatchWrite, OutputsAligned, Fine, Clean, StagedBy, Compare;
    Unroll(s.a20, evs);
    var w := Write(PlatformPhys(s.a20, evs[0].phys), evs[0].val);
    assert Writes(future)[0] == w;
    var x, rest := future[0], future[1..];
    assert future == [x] + rest && Of(x) == w;
    assert Writes(rest) == Writes(future)[1..] == DutsOf(s.a20, evs[1..]);
    var later := StagedBy(c, s.m.ram, s.a20, s.ninsn, evs);
    StagedRest(c, s.m.ram, s.a20, s.ninsn, evs);
    FineIff(c, Labelled(s.m, queue), x, rest, later, s.ninsn);
    if Clean(c, Compared(s.m, x)) {
      CleanOk(c, Compared(s.m, x));
      CleanKeeps(c, Labelled(s.m, queue), x, rest, later, s.ninsn);
      CompareIs(c, Labelled(s.m, queue), x);
      var s' := Next(c, s, evs[0]).s;
      OutputsMoved(s, s', DutOutsOf(evs), OutsOf(evs));
    }
  }

  lemma StagedRest(c: Config, ram: seq<Byte>, a20: bool, n: nat, evs: seq<Event>)
    requires 0 < |ram| && c.ramBytes <= |ram| && evs != [] && (evs[0].DutWrite? || evs[0].DutOut?)
    ensures StagedBy(c, ram, a20, n, evs) == StagedBy(c, ram, a20, n, evs[1..])
  {
  }

  lemma OutputsMoved(s: Machine, s': Machine, duts: seq<Write>, refs: seq<Write>)
    requires OutputsAligned(s, duts, refs) && s'.expIo == s.expIo && s'.dutIo == s.dutIo
    ensures OutputsAligned(s', duts, refs)
  {
  }

  /** The rest compares nothing. */
  lemma OtherGoes(c: Config, s: Machine, queue: seq<Ev>, future: seq<Ev>, evs: seq<Event>)
    requires Fits(c, s) && evs != [] && !evs[0].Step? && !evs[0].DutWrite? && Going(c, s, queue, future, evs)
    ensures var next := Next(c, s, evs[0]);
            next.Running? && Fits(c, next.s) && Going(c, next.s, queue, future, evs[1..])
  {
    hide InStep, Balanced, PlatformPhys, MatchWrite, StoreAll, StagedBy;
    Unroll(s.a20, evs);
    OtherStaged(c, s, evs);
    if evs[0].DutOut? {
      OutputOne(s, Write(evs[0].port, evs[0].val), DutOutsOf(evs[1..]), OutsOf(evs[1..]));
    } else {
      OtherInStep(s.m, Poked(c, s, evs[0]), queue, future, StagedBy(c, s.m.ram, s.a20, s.ninsn, evs), s.ninsn);
    }
  }

  /** The matcher after an event that no CPU takes part in. */
  function Poked(c: Config, s: Machine, e: Event): (m: Match)
    requires Fits(c, s)
    ensures |m.ram| == |s.m.ram|
  {
    match e
    case Dma(phys, val) => s.m.(ram := Poke(c, s.m.ram, phys, val))
    case Walker(phys, val) => s.m.(ram := Poke(c, s.m.ram, PlatformPhys(s.a20, phys), val))
    case _ => s.m
  }

  lemma OtherStaged(c: Config, s: Machine, evs: seq<Event>)
    requires Fits(c, s) && evs != [] && !evs[0].Step? && !evs[0].DutWrite?
    ensures StagedBy(c, s.m.ram, s.a20, s.ninsn, evs)
         == StagedBy(c, Poked(c, s, evs[0]).ram, if evs[0].SetA20? then evs[0].on else s.a20, s.ninsn, evs[1..])
    ensures !evs[0].DutOut? ==>
      Next(c, s, evs[0]) == Running(s.(m := Poked(c, s, evs[0]),
                                       a20 := if evs[0].SetA20? then evs[0].on else s.a20))
  {
    hide PlatformPhys, StoreAll, MatchWrite, Tagged;
  }

  lemma OtherInStep(m: Match, m': Match, queue: seq<Ev>, ls: seq<Ev>, later: seq<Ev>, top: nat)
    requires InStep(Labelled(m, queue), ls, later, top) && m' == m.(ram := m'.ram)
    ensures InStep(Labelled(m', queue), ls, later, top)
  {
    hide Ordered, InOrder, Balanced, AllDone;
  }

  /** At the end both sides have made all their changing writes. */
  lemma GoneIsSpent(c: Config, s: Machine, queue: seq<Ev>, future: seq<Ev>)
    requires Fits(c, s) && Going(c, s, queue, future, [])
    ensures Spent(s.m, queue) && s.expIo == [] && s.dutIo == []
  {
    hide Ordered;
    assert |future| == |Writes(future)| == 0;
    assert queue + future == queue;
    assert s.dutIo + [] == s.dutIo && s.expIo + [] == s.expIo;
    InStepOrdered(Labelled(s.m, queue), future, [], s.ninsn);
    forall g, a
      ensures Todo(s.m.exp, g, a) == Todo(queue, g, a)
    {
      NothingTodo(g, a);
      assert Todo(s.m.exp, g, a) + Todo([], g, a) == Todo(queue + future, g, a);
    }
    if queue == [] {
      TodoNone(s.m.exp, queue);
    } else {
      DoneSpent(s.m.exp);
      TodoNone(queue, s.m.exp);
    }
  }

  lemma DoneSpent(q: seq<Ev>)
    requires AllDone(q)
    ensures OnlySilent(q)
  {
  }

  lemma TodoNone(p: seq<Ev>, q: seq<Ev>)
    requires OnlySilent(q) && forall g, a :: Todo(p, g, a) == Todo(q, g, a)
    ensures OnlySilent(p)
  {
    forall e | e in p
      ensures e.done || e.silent
    {
      var i :| 0 <= i < |p| && p[i] == e;
      TodoSilent(q, e.grp, e.addr);
      if Changes(e) {
        TodoFrom(p, i);
      }
    }
  }

  /** Over a run: every comparison satisfies the guard exactly if none goes
      wrong; and then the run is accepted and drains. */
  lemma {:induction false} RunGoes(c: Config, s: Machine, queue: seq<Ev>, future: seq<Ev>, evs: seq<Event>)
    requires Fits(c, s) && !c.lenient && Going(c, s, queue, future, evs)
    ensures var r := CompareRun(c, s, queue, future, evs);
            && (AllFine(c, r.cs) <==> AllClean(c, r.cs))
            && (AllClean(c, r.cs) ==>
                  && Run(c, s, evs).Running? && Spent(Run(c, s, evs).s.m, r.queue)
                  && Run(c, s, evs).s.expIo == [] && Run(c, s, evs).s.dutIo == [])
    decreases evs
  {
    hide Going, AllFine, AllClean, Fine, Clean, Spent, Next, CompareAll, Compare;
    if evs == [] {
      GoneIsSpent(c, s, queue, future);
      NoneWrong(c);
    } else if evs[0].Step? {
      StepGoes(c, s, queue, future, evs);
      var t := CompareAll(c, Labelled(Committed(c, s, evs[0].stores, evs[0].fpu), []), queue);
      var next := Next(c, s, evs[0]);
      if next.Running? {
        AllSplit(c, t.cs, CompareRun(c, next.s, t.t.queue, future, evs[1..]).cs);
        if AllClean(c, t.cs) {
          RunGoes(c, next.s, t.t.queue, future, evs[1..]);
        }
      }
    } else if evs[0].DutWrite? {
      DutWriteGoes(c, s, queue, future, evs);
      var d, t, next := Compared(s.m, future[0]), Compare(c, Labelled(s.m, queue), future[0]), Next(c, s, evs[0]);
      AllOne(c, d);
      if next.Running? {
        AllSplit(c, [d], CompareRun(c, next.s, t.queue, future[1..], evs[1..]).cs);
        if Clean(c, d) {
          RunGoes(c, next.s, t.queue, future[1..], evs[1..]);
        }
      }
    } else {
      OtherGoes(c, s, queue, future, evs);
      RunGoes(c, Next(c, s, evs[0]).s, queue, future, evs[1..]);
    }
  }
}
