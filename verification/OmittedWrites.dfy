/** Writes that only one side performs. The matcher means to let z486 leave
    out a write that changes nothing, or make one the reference does not
    make. This module says exactly when it does. */
module OmittedWrites {
  import opened Platform
  import opened EventQueue
  import opened WriteMatcher
  import opened Outstanding
  import opened MatcherSoundness
  import opened CosimRun
  import opened RunSoundness
  import opened MatcherCompleteness

  // ---- Changing writes ----

  ghost predicate Changes(e: Ev) {
    !e.done && !e.silent
  }

  /** The values instruction g has yet to give byte a, in order. */
  ghost function Todo(q: seq<Ev>, g: nat, a: int): seq<Byte> {
    if q == [] then []
    else (if Changes(q[0]) && q[0].grp == g && q[0].addr == a then [q[0].val] else []) + Todo(q[1..], g, a)
  }

  /** The instructions that have yet to change byte a, each as often as it
      has to. */
  ghost function Owing(q: seq<Ev>, a: int): multiset<nat> {
    if q == [] then multiset{}
    else (if Changes(q[0]) && q[0].addr == a then multiset{q[0].grp} else multiset{}) + Owing(q[1..], a)
  }

  lemma {:induction false} TodoConcat(p: seq<Ev>, q: seq<Ev>, g: nat, a: int)
    ensures Todo(p + q, g, a) == Todo(p, g, a) + Todo(q, g, a)
  {
    if p == [] {
      assert p + q == q;
    } else {
      assert (p + q)[1..] == p[1..] + q;
      TodoConcat(p[1..], q, g, a);
    }
  }

  lemma {:induction false} OwingConcat(p: seq<Ev>, q: seq<Ev>, a: int)
    ensures Owing(p + q, a) == Owing(p, a) + Owing(q, a)
  {
    if p == [] {
      assert p + q == q;
    } else {
      assert (p + q)[1..] == p[1..] + q;
      OwingConcat(p[1..], q, a);
    }
  }

  lemma {:induction false} OwingTodo(q: seq<Ev>, g: nat, a: int)
    ensures Owing(q, a)[g] == |Todo(q, g, a)|
  {
    if q != [] {
      OwingTodo(q[1..], g, a);
    }
  }

  lemma {:induction false} TodoAdvance(q: seq<Ev>, g: nat, a: int)
    ensures Todo(Advance(q), g, a) == Todo(q, g, a)
  {
    if q != [] && q[0].done {
      TodoAdvance(q[1..], g, a);
    }
  }

  lemma {:induction false} TodoSilent(q: seq<Ev>, g: nat, a: int)
    requires OnlySilent(q)
    ensures Todo(q, g, a) == []
  {
    if q != [] {
      assert q[0] in q;
      TodoSilent(q[1..], g, a);
    }
  }

  /** An entry that changes a byte is among its instruction's. */
  lemma {:induction false} TodoFrom(q: seq<Ev>, i: nat)
    requires i < |q| && Changes(q[i])
    ensures Todo(q, q[i].grp, q[i].addr) != []
  {
    if i > 0 {
      TodoFrom(q[1..], i - 1);
    }
  }

  lemma {:induction false} TodoIndex(q: seq<Ev>, g: nat, a: int) returns (i: nat)
    requires Todo(q, g, a) != []
    ensures i < |q| && Changes(q[i]) && q[i].grp == g && q[i].addr == a
  {
    if Changes(q[0]) && q[0].grp == g && q[0].addr == a {
      i := 0;
    } else {
      var k := TodoIndex(q[1..], g, a);
      i := k + 1;
    }
  }

  /** Marking the first unmatched write of a byte. */
  lemma {:induction false} TodoMark(q: seq<Ev>, i: nat, g: nat, a: int)
    requires i < |q| && !q[i].done
    requires forall k :: 0 <= k < i ==> q[k].done || q[k].addr != q[i].addr
    ensures Todo(q, g, a) == Todo([q[i]], g, a) + Todo(q[i := q[i].(done := true)], g, a)
  {
    var q' := q[i := q[i].(done := true)];
    if i == 0 {
      assert q'[1..] == q[1..] && [q[0]][1..] == [];
    } else {
      assert q'[1..] == q[1..][i - 1 := q[i].(done := true)];
      TodoMark(q[1..], i - 1, g, a);
      assert [q[i]][1..] == [];
      assert q[i].addr == a ==> !(Changes(q[0]) && q[0].addr == a);
    }
  }

  // ---- What one comparison does ----

  ghost predicate Ordered(q: seq<Ev>, top: nat) {
    && (forall i, j :: 0 <= i < j < |q| ==> q[i].grp <= q[j].grp)
    && (forall i :: 0 <= i < |q| ==> q[i].grp <= top)
  }

  lemma OrderedAt(q: seq<Ev>, top: nat, i: nat, j: nat)
    requires Ordered(q, top) && i <= j < |q|
    ensures q[i].grp <= q[j].grp <= top
  {
  }

  lemma OrderedDrop(q: seq<Ev>, top: nat, k: nat)
    requires Ordered(q, top) && k <= |q|
    ensures Ordered(q[k..], top)
  {
  }

  ghost predicate Holds(c: Config, m: Match, w: Write)
    requires c.ramBytes <= |m.ram|
  {
    InRam(c, w.addr) && m.ram[w.addr] == w.val
  }

  /** The instructions before entry p's own have nothing changing left. */
  ghost predicate Reached(q: seq<Ev>, p: nat) {
    forall k :: 0 <= k < p && k < |q| && Changes(q[k]) ==> p < |q| && q[k].grp == q[p].grp
  }

  /** The comparison gets to the byte's first unmatched entry. */
  ghost predicate Finds(c: Config, m: Match, w: Write, exp: seq<Ev>)
    requires c.ramBytes <= |m.ram| && exp != []
  {
    var p := FirstPending(exp, w.addr);
    p < GroupLen(exp, exp[0].grp) || (!Holds(c, m, w) && Reached(exp, p))
  }

  lemma FirstIs(q: seq<Ev>, a: int, p: nat)
    requires p <= |q| && (p < |q| ==> !q[p].done && q[p].addr == a)
    requires forall k :: 0 <= k < p ==> q[k].done || q[k].addr != a
    ensures FirstPending(q, a) == p
  {
  }

  lemma {:induction false} FirstPast(q: seq<Ev>, k: nat, a: int)
    requires k <= FirstPending(q, a)
    ensures FirstPending(q[k..], a) == FirstPending(q, a) - k
  {
    if k == 0 {
      assert q[0..] == q;
    } else {
      FirstPast(q[1..], k - 1, a);
      assert q[1..][k - 1..] == q[k..];
    }
  }

  lemma FirstInPrefix(q: seq<Ev>, n: nat, a: int)
    requires n <= |q|
    ensures FirstPending(q[..n], a) == if FirstPending(q, a) < n then FirstPending(q, a) else n
  {
    var p := FirstPending(q, a);
    FirstIs(q[..n], a, if p < n then p else n);
  }

  lemma {:induction false} AdvanceSuffix(q: seq<Ev>) returns (k: nat)
    ensures k <= |q| && Advance(q) == q[k..] && AllDone(q[..k])
  {
    if q != [] && q[0].done {
      var j := AdvanceSuffix(q[1..]);
      k := j + 1;
      assert q[k..] == q[1..][j..] && q[..k] == [q[0]] + q[1..][..j];
    } else {
      k := 0;
    }
  }

  /** What holds of a comparison's result r, with exp the queue from its first
      unmatched entry on: either the byte's first entry is taken if the values
      are equal, or nothing is, or the write is queued. */
  ghost predicate Outcome(c: Config, m: Match, w: Write, exp: seq<Ev>, r: Reply)
    requires c.ramBytes <= |m.ram| && exp != []
  {
    var p := FirstPending(exp, w.addr);
    if !Finds(c, m, w, exp) then
      && (r.ok <==> Holds(c, m, w) && GroupLen(exp, exp[0].grp) <= p)
      && (r.ok ==> r.m.dut == m.dut && Same(exp, [], r.m.exp))
    else if p < |exp| then
      && (r.ok <==> exp[p].val == w.val)
      && (r.ok ==> r.m.dut == m.dut && Same(exp, [exp[p]], r.m.exp))
    else
      r.ok && r.m.dut == m.dut + [DutEvent(w)] && r.m.exp == [] && Same(exp, [], [])
  }

  /** q's changing writes are those of x, then those of r. */
  ghost predicate Same(q: seq<Ev>, x: seq<Ev>, r: seq<Ev>) {
    forall g, a :: Todo(q, g, a) == Todo(x, g, a) + Todo(r, g, a)
  }

  lemma SameAdvance(q: seq<Ev>)
    ensures Same(q, [], Advance(q))
  {
    forall g, a
      ensures Todo(q, g, a) == Todo([], g, a) + Todo(Advance(q), g, a)
    {
      TodoAdvance(q, g, a);
    }
  }

  lemma TakenOutcome(exp: seq<Ev>, p: nat)
    requires p < |exp| && !exp[p].done
    requires forall k :: 0 <= k < p ==> exp[k].done || exp[k].addr != exp[p].addr
    ensures Same(exp, [exp[p]], Advance(exp[p := exp[p].(done := true)]))
  {
    var marked := exp[p := exp[p].(done := true)];
    forall g, a
      ensures Todo(exp, g, a) == Todo([exp[p]], g, a) + Todo(Advance(marked), g, a)
    {
      TodoMark(exp, p, g, a);
      TodoAdvance(marked, g, a);
    }
  }

  /** Passing an instruction that has only silent writes left. */
  lemma Passed(c: Config, m: Match, w: Write, exp: seq<Ev>, n: nat, k: nat, top: nat)
    requires c.ramBytes <= |m.ram| && exp != [] && Ordered(exp, top)
    requires n == GroupLen(exp, exp[0].grp) <= k <= |exp| && OnlySilent(exp[..k])
    requires FirstPending(exp, w.addr) >= k && !Holds(c, m, w)
    ensures var p := FirstPending(exp, w.addr);
            && FirstPending(exp[k..], w.addr) == p - k
            && (k == |exp| ==> Reached(exp, p))
            && (k < |exp| ==> (Reached(exp, p) <==> Finds(c, m, w, exp[k..])))
    ensures Same(exp, [], exp[k..]) && Ordered(exp[k..], top)
  {
    hide Ordered, Reached, Same, Todo, FirstPending, GroupLen;
    var p, q := FirstPending(exp, w.addr), exp[k..];
    FirstPast(exp, k, w.addr);
    OrderedDrop(exp, top, k);
    PassedSame(exp, k);
    PassedReach(exp, k, p);
    if k < |exp| && p - k < GroupLen(q, q[0].grp) {
      InHeadReached(q, p - k);
    }
  }

  lemma PassedSame(exp: seq<Ev>, k: nat)
    requires k <= |exp| && OnlySilent(exp[..k])
    ensures Same(exp, [], exp[k..])
  {
    assert exp == exp[..k] + exp[k..];
    forall g, a
      ensures Todo(exp, g, a) == Todo([], g, a) + Todo(exp[k..], g, a)
    {
      TodoConcat(exp[..k], exp[k..], g, a);
      TodoSilent(exp[..k], g, a);
    }
  }

  lemma PassedReach(exp: seq<Ev>, k: nat, p: nat)
    requires k <= p <= |exp| && OnlySilent(exp[..k])
    ensures Reached(exp, p) <==> Reached(exp[k..], p - k)
    ensures k == |exp| ==> Reached(exp, p)
  {
    var q := exp[k..];
    forall j | 0 <= j < k
      ensures !Changes(exp[j])
    {
      assert exp[..k][j] in exp[..k];
    }
    if Reached(q, p - k) {
      forall j | 0 <= j < p && j < |exp| && Changes(exp[j])
        ensures p < |exp| && exp[j].grp == exp[p].grp
      {
        assert q[j - k] == exp[j];
      }
    }
    if Reached(exp, p) {
      forall j | 0 <= j < p - k && j < |q| && Changes(q[j])
        ensures p - k < |q| && q[j].grp == q[p - k].grp
      {
        assert q[j] == exp[j + k];
      }
    }
  }

  lemma InHeadReached(q: seq<Ev>, p: nat)
    requires q != [] && p < GroupLen(q, q[0].grp)
    ensures Reached(q, p)
  {
  }

  /** An unfinished oldest instruction that does not list the byte stops the
      comparison. */
  lemma Blocked(exp: seq<Ev>, n: nat, p: nat, top: nat)
    requires exp != [] && n == GroupLen(exp, exp[0].grp) <= p <= |exp| && Ordered(exp, top)
    requires !OnlySilent(exp[..n])
    ensures !Reached(exp, p)
  {
    hide Ordered;
    var e :| e in exp[..n] && Changes(e);
    var k :| 0 <= k < n && exp[..n][k] == e;
    assert exp[k] == e;
    if p < |exp| {
      OrderedAt(exp, top, 0, n);
      OrderedAt(exp, top, n, p);
    }
  }

  lemma {:induction false} Compares(c: Config, m: Match, w: Write, top: nat)
    requires c.ramBytes <= |m.ram| && !c.lenient && Ordered(m.exp, top) && Advance(m.exp) != []
    ensures Outcome(c, m, w, Advance(m.exp), MatchWrite(c, m, w))
    decreases |m.exp|
  {
    hide Todo, Ordered, Reached, Advance;
    var exp := Advance(m.exp);
    AdvanceOrdered(m.exp, top);
    var n, p := GroupLen(exp, exp[0].grp), FirstPending(exp, w.addr);
    FirstInPrefix(exp, n, w.addr);
    if p < n {
      Found(c, m, w, exp, n, p);
      TakenOutcome(exp, p);
    } else if Holds(c, m, w) {
      Rewritten(c, m, w, exp, n);
      SameItself(exp);
    } else {
      NotFound(c, m, w, exp, n);
      if OnlySilent(exp[..n]) {
        ComparesPast(c, m, w, exp, n, p, top);
      } else {
        Blocked(exp, n, p, top);
      }
    }
  }

  lemma SameItself(q: seq<Ev>)
    ensures Same(q, [], q)
  {
  }

  lemma AdvanceOrdered(q: seq<Ev>, top: nat)
    requires Ordered(q, top)
    ensures Ordered(Advance(q), top)
  {
    var k := AdvanceSuffix(q);
    OrderedDrop(q, top, k);
  }

  lemma {:induction false} ComparesPast(c: Config, m: Match, w: Write, exp: seq<Ev>, n: nat, p: nat, top: nat)
    requires c.ramBytes <= |m.ram| && !c.lenient && exp == Advance(m.exp) && exp != [] && Ordered(exp, top)
    requires n == GroupLen(exp, exp[0].grp) <= p && p == FirstPending(exp, w.addr) && n > 0
    requires !Holds(c, m, w) && OnlySilent(exp[..n])
    requires MatchWrite(c, m, w) == MatchWrite(c, m.(exp := Advance(exp[n..])), w)
    ensures Outcome(c, m, w, exp, MatchWrite(c, m, w))
    decreases |m.exp|, 0
  {
    hide Todo, Same, Ordered, Reached, FirstPending, OnlySilent, AllDone, Advance, GroupLen, Outcome, Holds, MatchWrite;
    var j := AdvanceSuffix(exp[n..]);
    var k := n + j;
    var q := exp[k..];
    assert exp[n..][j..] == q && exp[..k] == exp[..n] + exp[n..][..j];
    PassedDone(exp, n, j, w.addr, p);
    Passed(c, m, w, exp, n, k, top);
    var m' := m.(exp := q);
    assert Advance(q) == q by { AdvanceTwice(exp[n..]); }
    if q == [] {
      QueuedOutcome(c, m, w, exp, k);
    } else {
      Compares(c, m', w, top);
      OutcomePast(c, m, w, exp, k, p, MatchWrite(c, m', w));
    }
  }

  lemma QueuedOutcome(c: Config, m: Match, w: Write, exp: seq<Ev>, k: nat)
    requires c.ramBytes <= |m.ram| && exp != [] && k == |exp| && FirstPending(exp, w.addr) >= k
    requires Reached(exp, FirstPending(exp, w.addr)) && Same(exp, [], exp[k..])
    requires !Holds(c, m, w) && GroupLen(exp, exp[0].grp) <= FirstPending(exp, w.addr)
    ensures Outcome(c, m, w, exp, MatchWrite(c, m.(exp := []), w))
  {
    hide Todo, Reached, FirstPending, GroupLen;
    assert exp[k..] == [];
  }

  lemma PassedDone(exp: seq<Ev>, n: nat, j: nat, a: int, p: nat)
    requires n <= p && n + j <= |exp| && OnlySilent(exp[..n]) && AllDone(exp[n..][..j])
    requires p == FirstPending(exp, a)
    ensures OnlySilent(exp[..n + j]) && n + j <= p
  {
    assert exp[..n + j] == exp[..n] + exp[n..][..j];
    forall i | n <= i < n + j
      ensures exp[i].done
    {
      assert exp[n..][..j][i - n] == exp[i];
    }
  }

  lemma OutcomePast(c: Config, m: Match, w: Write, exp: seq<Ev>, k: nat, p: nat, r: Reply)
    requires c.ramBytes <= |m.ram| && exp != [] && k < |exp| && k <= p && p == FirstPending(exp, w.addr)
    requires GroupLen(exp, exp[0].grp) <= p && !Holds(c, m, w)
    requires FirstPending(exp[k..], w.addr) == p - k
    requires Reached(exp, p) <==> Finds(c, m, w, exp[k..])
    requires Same(exp, [], exp[k..])
    requires Outcome(c, m.(exp := exp[k..]), w, exp[k..], r)
    ensures Outcome(c, m, w, exp, r)
  {
    hide Todo, Reached, GroupLen, FirstPending;
    var q := exp[k..];
    assert Finds(c, m, w, exp) <==> Finds(c, m.(exp := q), w, q);
    if p < |exp| {
      assert q[p - k] == exp[p];
    }
    SameTrans(exp, q);
  }

  lemma SameTrans(p: seq<Ev>, q: seq<Ev>)
    requires Same(p, [], q)
    ensures forall x: seq<Ev>, r: seq<Ev> :: Same(q, x, r) ==> Same(p, x, r)
  {
    forall x: seq<Ev>, r: seq<Ev> | Same(q, x, r)
      ensures Same(p, x, r)
    {
      forall g, a
        ensures Todo(p, g, a) == Todo(x, g, a) + Todo(r, g, a)
      {
        assert Todo(p, g, a) == Todo([], g, a) + Todo(q, g, a);
      }
    }
  }

  lemma OrderedMark(q: seq<Ev>, top: nat, i: nat)
    requires Ordered(q, top) && i < |q|
    ensures Ordered(q[i := q[i].(done := true)], top)
  {
  }

  /** The queue stays in the instructions' order, and RAM as it is. */
  lemma {:induction false} ComparesInOrder(c: Config, m: Match, w: Write, top: nat)
    requires c.ramBytes <= |m.ram| && !c.lenient && Ordered(m.exp, top)
    ensures Ordered(MatchWrite(c, m, w).m.exp, top)
    ensures MatchWrite(c, m, w).m.ram == m.ram
    decreases |m.exp|
  {
    hide Ordered, Advance;
    var exp := Advance(m.exp);
    AdvanceOrdered(m.exp, top);
    if exp == [] {
      OrderedDrop(exp, top, 0);
    } else {
      var n := GroupLen(exp, exp[0].grp);
      var i := FirstPending(exp[..n], w.addr);
      if i < n {
        Found(c, m, w, exp, n, i);
        OrderedMark(exp, top, i);
        AdvanceOrdered(exp[i := exp[i].(done := true)], top);
      } else if Holds(c, m, w) {
        Rewritten(c, m, w, exp, n);
      } else {
        NotFound(c, m, w, exp, n);
        OrderedDrop(exp, top, n);
        AdvanceOrdered(exp[n..], top);
        if OnlySilent(exp[..n]) {
          ComparesInOrder(c, m.(exp := Advance(exp[n..])), w, top);
        }
      }
    }
  }
}
