/** What one comparison does to one byte: the writes of it that are still
    outstanding, and the reference's RAM. */
module MatcherSoundness {
  import opened Platform
  import opened EventQueue
  import opened WriteMatcher
  import opened Outstanding

  ghost predicate AllSilent(u: seq<Ev>) {
    forall k :: 0 <= k < |u| ==> u[k].silent
  }

  /** Only a RAM byte's write can be silent. */
  ghost predicate SilentInRam(c: Config, q: seq<Ev>) {
    forall e :: e in q && e.silent ==> InRam(c, e.addr)
  }

  /** z486's memory after one of its writes. */
  function Put(c: Config, z: seq<Byte>, w: Write): (r: seq<Byte>)
    requires c.ramBytes <= |z|
    ensures |r| == |z|
  {
    if InRam(c, w.addr) then z[w.addr := w.val] else z
  }

  function PutAll(c: Config, z: seq<Byte>, ds: seq<Ev>): (r: seq<Byte>)
    requires c.ramBytes <= |z|
    ensures |r| == |z|
    decreases ds
  {
    if ds == [] then z else PutAll(c, Put(c, z, Write(ds[0].addr, ds[0].val)), ds[1..])
  }

  // ---- Adoption ----

  /** The comparison takes z486's value for an x87 store of another. */
  ghost predicate Adopts(c: Config, m: Match, w: Write)
    requires c.ramBytes <= |m.ram|
    decreases |m.exp|
  {
    var exp := Advance(m.exp);
    && exp != []
    && var n := GroupLen(exp, exp[0].grp);
       var i := FirstPending(exp[..n], w.addr);
       if i < n then c.lenient && exp[i].fpu && exp[i].val != w.val
       else
         && !(InRam(c, w.addr) && m.ram[w.addr] == w.val) && OnlySilent(exp[..n])
         && Adopts(c, m.(exp := exp[n..]), w)
  }

  /** No later outstanding write of the byte leaves another value. */
  ghost predicate LastOrSame(m: Match, w: Write) {
    var u := Undone(m.exp, w.addr);
    |u| == 1 || (u != [] && u[|u| - 1].val == w.val)
  }

  /** The comparison does not adopt a RAM byte's value under a later write of
      another. */
  ghost predicate Careful(c: Config, m: Match, w: Write)
    requires c.ramBytes <= |m.ram|
  {
    InRam(c, w.addr) && Adopts(c, m, w) ==> LastOrSame(m, w)
  }

  // ---- One comparison, one byte ----

  /** u' is u without some silent entries at its front. */
  ghost predicate Skipped(u: seq<Ev>, u': seq<Ev>) {
    |u'| <= |u| && u' == u[|u| - |u'|..] && AllSilent(u[..|u| - |u'|])
  }

  /** What an accepted comparison of w does at byte a. Another byte only loses
      silent entries. Its own loses its first entry, matched or adopted; or
      nothing, when RAM holds the value, or when nothing at all is left and
      the write waits for the reference. */
  ghost predicate Compared(c: Config, m: Match, w: Write, r: Match, a: int)
    requires c.ramBytes <= |m.ram| == |r.ram|
  {
    var u, u' := Undone(m.exp, a), Undone(r.exp, a);
    if a != w.addr then
      Skipped(u, u') && (0 <= a < |m.ram| ==> r.ram[a] == m.ram[a])
    else if Adopts(c, m, w) then
      && c.lenient && u != [] && u[0].fpu && u[0].val != w.val && u' == u[1..] && r.dut == m.dut
      && r.ram == (if InRam(c, a) then m.ram[a := w.val] else m.ram)
    else
      && r.ram == m.ram
      && (|| (r.dut == m.dut && u != [] && u[0].val == w.val && u' == u[1..])
          || (r.dut == m.dut && InRam(c, a) && m.ram[a] == w.val && u' == u)
          || (r.dut == m.dut + [DutEvent(w)] && u == [] && u' == []))
  }

  lemma {:induction false} AdvanceKeeps(q: seq<Ev>)
    ensures forall e :: e in Advance(q) ==> e in q
  {
    if q != [] && q[0].done {
      AdvanceKeeps(q[1..]);
    }
  }

  lemma UndoneMatched(exp: seq<Ev>, i: nat, a: int)
    requires i < |exp| && !exp[i].done
    requires forall k :: 0 <= k < i ==> exp[k].done || exp[k].addr != exp[i].addr
    ensures var r := Advance(exp[i := exp[i].(done := true)]);
            Undone(exp, a) == if a == exp[i].addr then [exp[i]] + Undone(r, a) else Undone(r, a)
  {
    UndoneMark(exp, i, a);
    UndoneAdvance(exp[i := exp[i].(done := true)], a);
  }

  lemma FoundCompared(c: Config, m: Match, w: Write, exp: seq<Ev>, n: nat, i: nat, a: int)
    requires Searched(c, m, w, exp, n, i) && i < n && MatchWrite(c, m, w).ok
    ensures Compared(c, m, w, MatchWrite(c, m, w).m, a)
  {
    Found(c, m, w, exp, n, i);
    assert forall k :: 0 <= k < i ==> exp[..n][k] == exp[k];
    UndoneAdvance(m.exp, a);
    UndoneMatched(exp, i, a);
  }

  lemma SkippedGroup(exp: seq<Ev>, n: nat, w: Write, a: int)
    requires n <= |exp| && OnlySilent(exp[..n]) && FirstPending(exp[..n], w.addr) == n
    ensures Skipped(Undone(exp, a), Undone(exp[n..], a))
    ensures Undone(exp[n..], w.addr) == Undone(exp, w.addr)
  {
    assert exp == exp[..n] + exp[n..];
    UndoneConcat(exp[..n], exp[n..], a);
    UndoneConcat(exp[..n], exp[n..], w.addr);
    UndoneEntries(exp[..n], a);
    UndoneNone(exp[..n], w.addr);
    var p := Undone(exp[..n], a);
    assert Undone(exp, a)[..|p|] == p;
  }

  lemma SkippedTrans(u: seq<Ev>, v: seq<Ev>, w: seq<Ev>)
    requires Skipped(u, v) && Skipped(v, w)
    ensures Skipped(u, w)
  {
    var i, j := |u| - |v|, |v| - |w|;
    forall k | 0 <= k < i + j
      ensures u[k].silent
    {
      if k < i {
        assert u[..i][k].silent;
      } else {
        assert v[..j][k - i].silent && v[k - i] == u[k];
      }
    }
  }

  lemma {:induction false} CompareByte(c: Config, m: Match, w: Write, a: int)
    requires c.ramBytes <= |m.ram| && MatchWrite(c, m, w).ok
    ensures Compared(c, m, w, MatchWrite(c, m, w).m, a)
    decreases |m.exp|
  {
    var exp := Advance(m.exp);
    UndoneAdvance(m.exp, a);
    UndoneAdvance(m.exp, w.addr);
    if exp != [] {
      var n := GroupLen(exp, exp[0].grp);
      var i := FirstPending(exp[..n], w.addr);
      if i < n {
        FoundCompared(c, m, w, exp, n, i, a);
      } else if InRam(c, w.addr) && m.ram[w.addr] == w.val {
      } else {
        SkipCompared(c, m, w, exp, n, a);
      }
    }
  }

  lemma {:induction false} SkipCompared(c: Config, m: Match, w: Write, exp: seq<Ev>, n: nat, a: int)
    requires Searched(c, m, w, exp, n, n) && !(InRam(c, w.addr) && m.ram[w.addr] == w.val)
    requires MatchWrite(c, m, w).ok
    ensures Compared(c, m, w, MatchWrite(c, m, w).m, a)
    decreases |m.exp|, 0
  {
    var m' := m.(exp := exp[n..]);
    SkippedGroup(exp, n, w, a);
    UndoneAdvance(m.exp, a);
    CompareByte(c, m', w, a);
    if a != w.addr {
      SkippedTrans(Undone(m.exp, a), Undone(m'.exp, a), Undone(MatchWrite(c, m, w).m.exp, a));
    }
  }

  /** What waits has found nothing outstanding, and no device byte's write is
      ever skipped. */
  lemma {:induction false} CompareQueues(c: Config, m: Match, w: Write)
    requires c.ramBytes <= |m.ram| && MatchWrite(c, m, w).ok
    ensures var r := MatchWrite(c, m, w).m;
            && (r.dut == m.dut || (r.dut == m.dut + [DutEvent(w)] && r.exp == []))
            && (SilentInRam(c, m.exp) ==> SilentInRam(c, r.exp))
    decreases |m.exp|
  {
    var exp := Advance(m.exp);
    AdvanceKeeps(m.exp);
    if exp != [] {
      var n := GroupLen(exp, exp[0].grp);
      var i := FirstPending(exp[..n], w.addr);
      if i < n {
        AdvanceKeeps(exp[i := exp[i].(done := true)]);
      } else if !(InRam(c, w.addr) && m.ram[w.addr] == w.val) {
        CompareQueues(c, m.(exp := exp[n..]), w);
      }
    }
  }

  lemma DeviceNotSkipped(c: Config, q: seq<Ev>, a: int, u': seq<Ev>)
    requires SilentInRam(c, q) && !InRam(c, a) && Skipped(Undone(q, a), u')
    ensures u' == Undone(q, a)
  {
    var u := Undone(q, a);
    UndoneEntries(q, a);
    assert u != [] ==> u[0] in u;
    if |u'| < |u| {
      FirstSilent(u, |u| - |u'|);
    }
  }

  lemma FirstSilent(u: seq<Ev>, n: nat)
    requires 0 < n <= |u| && AllSilent(u[..n])
    ensures u[0].silent
  {
    assert u[..n][0] == u[0];
  }
}
