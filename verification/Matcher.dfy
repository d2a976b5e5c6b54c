/** The write matcher as the program runs it: queues updated in place. */
module Matcher {
  import opened Platform
  import opened EventQueue
  import CosimRun
  import WriteMatcher

  /** A search that stopped at n stopped where the specification says. */
  lemma {:induction false} GroupLenIs(q: seq<Ev>, grp: nat, n: nat)
    requires n <= |q| && (forall k :: 0 <= k < n ==> q[k].grp == grp)
    requires n < |q| ==> q[n].grp != grp
    ensures WriteMatcher.GroupLen(q, grp) == n
  {
    if n > 0 {
      GroupLenIs(q[1..], grp, n - 1);
    }
  }

  lemma {:induction false} GroupLenAtLeast(q: seq<Ev>, grp: nat, n: nat)
    requires n <= |q| && (forall k :: 0 <= k < n ==> q[k].grp == grp)
    ensures WriteMatcher.GroupLen(q, grp) >= n
  {
    if n > 0 {
      GroupLenAtLeast(q[1..], grp, n - 1);
    }
  }

  lemma {:induction false} FirstPendingIs(q: seq<Ev>, phys: int, i: nat)
    requires i <= |q| && (forall k :: 0 <= k < i ==> q[k].done || q[k].addr != phys)
    requires i < |q| ==> !q[i].done && q[i].addr == phys
    ensures WriteMatcher.FirstPending(q, phys) == i
  {
    if i > 0 {
      FirstPendingIs(q[1..], phys, i - 1);
    }
  }

  class Matcher {
    const c: Config
    const ram: array<Byte>
    var expW: Queue
    var dutW: Queue

    ghost predicate Valid()
      reads this, expW, dutW
    {
      && expW.Valid() && dutW.Valid()
      && expW != dutW && expW.v != dutW.v
      && 0 < ram.Length && c.ramBytes <= ram.Length
    }

    ghost function Abs(): WriteMatcher.Match
      reads this, expW, expW.v, dutW, dutW.v, ram
      requires Valid()
    {
      WriteMatcher.Match(expW.Contents(), dutW.Contents(), ram[..])
    }

    constructor (c: Config, ram: array<Byte>)
      requires 0 < ram.Length && c.ramBytes <= ram.Length
      ensures Valid() && fresh(expW) && fresh(expW.v) && fresh(dutW) && fresh(dutW.v)
      ensures this.c == c && this.ram == ram && Abs() == WriteMatcher.Match([], [], ram[..])
    {
      this.c, this.ram := c, ram;
      expW := new Queue();
      dutW := new Queue();
    }

    method AdvanceExp()
      requires Valid()
      modifies expW`head
      ensures Valid()
      ensures expW.Contents() == WriteMatcher.Advance(old(expW.Contents()))
      ensures expW.head >= old(expW.head)
    {
      while expW.head < expW.tail && expW.v[expW.head].done
        invariant Valid() && expW.head >= old(expW.head)
        invariant WriteMatcher.Advance(expW.Contents()) == WriteMatcher.Advance(old(expW.Contents()))
      {
        ghost var q := expW.Contents();
        expW.head := expW.head + 1;
        assert expW.Contents() == q[1..];
      }
    }

    /** One z486 write, as match_write. */
    method MatchWrite(phys: int, val: Byte) returns (ok: bool)
      requires Valid()
      modifies expW`head, expW.v, dutW, dutW.v, ram
      ensures Valid() && (dutW.v == old(dutW.v) || fresh(dutW.v))
      ensures WriteMatcher.Reply(Abs(), ok) == WriteMatcher.MatchWrite(c, old(Abs()), WriteMatcher.Write(phys, val))
    {
      ghost var w := WriteMatcher.Write(phys, val);
      var again := true;
      ok := true;
      while again
        invariant Valid() && (dutW.v == old(dutW.v) || fresh(dutW.v))
        invariant again ==> WriteMatcher.MatchWrite(c, Abs(), w) == WriteMatcher.MatchWrite(c, old(Abs()), w)
        invariant !again ==> WriteMatcher.Reply(Abs(), ok) == WriteMatcher.MatchWrite(c, old(Abs()), w)
        decreases again, expW.tail - expW.head
      {
        again, ok := MatchRound(phys, val);
      }
    }

    /** One turn of the search: decided, or the oldest instruction, with only
        silent writes left, given up. */
    method MatchRound(phys: int, val: Byte) returns (again: bool, ok: bool)
      requires Valid()
      modifies expW`head, expW.v, dutW, dutW.v, ram
      ensures Valid() && (dutW.v == old(dutW.v) || fresh(dutW.v))
      ensures var w := WriteMatcher.Write(phys, val);
              if again then
                WriteMatcher.MatchWrite(c, Abs(), w) == WriteMatcher.MatchWrite(c, old(Abs()), w)
              else
                WriteMatcher.Reply(Abs(), ok) == WriteMatcher.MatchWrite(c, old(Abs()), w)
      ensures again ==> expW.tail - expW.head < old(expW.tail - expW.head)
    {
      ghost var m := Abs();
      AdvanceExp();
      WriteMatcher.SkipDone(c, m, Abs(), WriteMatcher.Write(phys, val));
      if expW.head == expW.tail {
        Enqueue(phys, val);
        again, ok := false, true;
      } else {
        again, ok := SearchRound(phys, val);
      }
    }

    method Enqueue(phys: int, val: Byte)
      requires Valid() && expW.head == expW.tail
      modifies dutW, dutW.v
      ensures Valid() && (dutW.v == old(dutW.v) || fresh(dutW.v))
      ensures WriteMatcher.Reply(Abs(), true)
           == WriteMatcher.MatchWrite(c, old(Abs()), WriteMatcher.Write(phys, val))
    {
      dutW.Push(Ev(phys, val, false, false, false, 0));
    }

    method SearchRound(phys: int, val: Byte) returns (again: bool, ok: bool)
      requires Valid() && expW.head < expW.tail && !expW.v[expW.head].done
      modifies expW`head, expW.v, ram
      ensures Valid()
      ensures var w := WriteMatcher.Write(phys, val);
              if again then WriteMatcher.MatchWrite(c, Abs(), w) == WriteMatcher.MatchWrite(c, old(Abs()), w)
              else WriteMatcher.Reply(Abs(), ok) == WriteMatcher.MatchWrite(c, old(Abs()), w)
      ensures again ==> expW.tail - expW.head < old(expW.tail - expW.head)
    {
      ghost var m, w, exp := Abs(), WriteMatcher.Write(phys, val), expW.Contents();
      var end, found := Search(expW.v[expW.head].grp, phys);
      ghost var n, i := WriteMatcher.GroupLen(exp, exp[0].grp), end - expW.head;
      if found {
        ok := TakeFound(end, phys, val, n);
        again := false;
      } else {
        again, ok := Miss(end, phys, val, m);
      }
    }

    /** No write of the oldest instruction is z486's: a rewrite of the byte's
        value, an instruction to give up, or a divergence. */
    method Miss(end: nat, phys: int, val: Byte, ghost m: WriteMatcher.Match) returns (again: bool, ok: bool)
      requires Valid() && expW.head <= end <= expW.tail && m.ram == ram[..]
      requires WriteMatcher.Searched(c, m, WriteMatcher.Write(phys, val), expW.Contents(), end - expW.head,
            end - expW.head)
      modifies expW`head, expW.v
      ensures Valid()
      ensures var w, now := WriteMatcher.Write(phys, val), m.(exp := expW.Contents());
              if again then WriteMatcher.MatchWrite(c, now, w) == WriteMatcher.MatchWrite(c, m, w)
              else WriteMatcher.Reply(now, ok) == WriteMatcher.MatchWrite(c, m, w)
      ensures again ==> expW.tail - expW.head < old(expW.tail - expW.head)
    {
      ghost var w, exp, n := WriteMatcher.Write(phys, val), expW.Contents(), end - expW.head;
      if InRam(c, phys) && ram[phys] == val {
        WriteMatcher.Rewritten(c, m, w, exp, n);
        return false, true;
      }
      var onlySilent := OnlySilent(end);
      WriteMatcher.NotFound(c, m, w, exp, n);
      if !onlySilent {
        return false, false;
      }
      GiveUp(end);
      return true, true;
    }

    method TakeFound(at: nat, phys: int, val: Byte, ghost n: nat) returns (ok: bool)
      requires Valid() && expW.head <= at < expW.head + n
      requires WriteMatcher.Searched(c, Abs(), WriteMatcher.Write(phys, val), expW.Contents(), n, at - expW.head)
      modifies expW`head, expW.v, ram
      ensures Valid()
      ensures WriteMatcher.Reply(Abs(), ok)
           == WriteMatcher.MatchWrite(c, old(Abs()), WriteMatcher.Write(phys, val))
    {
      WriteMatcher.Found(c, Abs(), WriteMatcher.Write(phys, val), expW.Contents(), n, at - expW.head);
      ok := Take(at, phys, val);
    }

    /** The unmatched write at `at` is z486's: mark it, or report its value. */
    method Take(at: nat, phys: int, val: Byte) returns (ok: bool)
      requires Valid() && expW.head <= at < expW.tail
      requires expW.v[at].addr == phys && !expW.v[at].done
      modifies expW`head, expW.v, ram
      ensures Valid()
      ensures WriteMatcher.Reply(Abs(), ok) == WriteMatcher.Taken(c, old(Abs()), WriteMatcher.Write(phys, val),
            at - old(expW.head))
    {
      var e := expW.v[at];
      if e.val != val {
        if !(c.lenient && e.fpu) {
          return false;
        }
        if InRam(c, phys) {
          ram[phys] := val;
        }
      }
      Mark(at);
      return true;
    }

    method Mark(at: nat)
      requires Valid() && expW.head <= at < expW.tail
      modifies expW`head, expW.v
      ensures Valid()
      ensures var exp, i := old(expW.Contents()), at - old(expW.head);
              expW.Contents() == WriteMatcher.Advance(exp[i := exp[i].(done := true)])
    {
      ghost var exp, i := expW.Contents(), at - expW.head;
      expW.v[at] := expW.v[at].(done := true);
      assert expW.Contents() == exp[i := exp[i].(done := true)];
      AdvanceExp();
    }

    /** The entries before end, the oldest instruction's, are done with. */
    method GiveUp(end: nat)
      requires Valid() && expW.head < end <= expW.tail
      modifies expW`head, expW.v
      ensures Valid() && expW.tail - expW.head < old(expW.tail - expW.head)
      ensures expW.Contents() == WriteMatcher.Advance(old(expW.Contents())[end - old(expW.head)..])
    {
      ghost var exp := expW.Contents();
      forall i | expW.head <= i < end {
        expW.v[i] := expW.v[i].(done := true);
      }
      AdvanceMarked(expW.Contents(), exp, end - expW.head);
      AdvanceExp();
    }

    /** The oldest instruction's first unmatched write to phys, or its end. */
    method Search(grp: nat, phys: int) returns (end: nat, found: bool)
      requires Valid() && expW.head < expW.tail && expW.v[expW.head].grp == grp
      ensures expW.head <= end <= expW.tail
      ensures var q := expW.Contents();
              var n := WriteMatcher.GroupLen(q, grp);
              && n <= |q| && end - expW.head == WriteMatcher.FirstPending(q[..n], phys)
              && found == (end - expW.head < n)
    {
      ghost var q := expW.Contents();
      end, found := expW.head, false;
      while end < expW.tail && expW.v[end].grp == grp
        invariant expW.head <= end <= expW.tail
        invariant forall k :: 0 <= k < end - expW.head ==> q[k].grp == grp && (q[k].done || q[k].addr != phys)
      {
        if !expW.v[end].done && expW.v[end].addr == phys {
          found := true;
          break;
        }
        end := end + 1;
      }
      ghost var i := end - expW.head;
      if found {
        GroupLenAtLeast(q, grp, i + 1);
      } else {
        GroupLenIs(q, grp, i);
      }
      FirstPendingIs(q[..WriteMatcher.GroupLen(q, grp)], phys, i);
    }

    method OnlySilent(end: nat) returns (r: bool)
      requires Valid() && expW.head <= end <= expW.tail
      ensures r == WriteMatcher.OnlySilent(expW.Contents()[..end - expW.head])
    {
      ghost var p := expW.Contents()[..end - expW.head];
      r := true;
      var i := expW.head;
      while i < end
        invariant expW.head <= i <= end
        invariant r == forall k :: 0 <= k < i - expW.head ==> p[k].done || p[k].silent
      {
        if !expW.v[i].done && !expW.v[i].silent {
          r := false;
          assert !(p[i - expW.head].done || p[i - expW.head].silent);
        }
        i := i + 1;
      }
    }

    /** The step's staged writes join the expected ones as instruction grp,
        then the z486 writes that arrived first are matched. */
    method CommitWrites(stage: seq<Ev>, grp: nat) returns (ok: bool)
      requires Valid()
      modifies this`dutW, expW, expW.v, ram
      ensures Valid()
      ensures WriteMatcher.Reply(Abs(), ok) == WriteMatcher.Commit(c, old(Abs()), stage, grp)
    {
      Expect(stage, grp);
      var pend := dutW;
      dutW := new Queue();
      ok := Replay(pend);
    }

    method Expect(stage: seq<Ev>, grp: nat)
      requires Valid()
      modifies expW, expW.v
      ensures Valid() && (expW.v == old(expW.v) || fresh(expW.v))
      ensures expW.Contents() == old(expW.Contents()) + WriteMatcher.Tagged(stage, grp)
    {
      var i := 0;
      while i < |stage|
        invariant 0 <= i <= |stage| && Valid()
        invariant expW.v == old(expW.v) || fresh(expW.v)
        invariant expW.Contents() == old(expW.Contents()) + WriteMatcher.Tagged(stage[..i], grp)
      {
        expW.Push(stage[i].(grp := grp));
        i := i + 1;
        assert WriteMatcher.Tagged(stage[..i], grp)
            == WriteMatcher.Tagged(stage[..i - 1], grp) + [stage[i - 1].(grp := grp)];
      }
      assert stage[..i] == stage;
    }

    /** The z486 writes in pend, in order, up to the first that differs. */
    method Replay(pend: Queue) returns (ok: bool)
      requires Valid() && pend.Valid()
      requires pend != expW && pend != dutW && pend.v != expW.v && pend.v != dutW.v
      modifies expW`head, expW.v, dutW, dutW.v, ram
      ensures Valid()
      ensures WriteMatcher.Reply(Abs(), ok) == WriteMatcher.MatchAll(c, old(Abs()), pend.Contents())
    {
      hide WriteMatcher.MatchWrite;
      ghost var start, ds := Abs(), pend.Contents();
      var k := pend.head;
      ok := true;
      while k < pend.tail && ok
        invariant pend.Contents() == ds && pend.head <= k <= pend.tail
        invariant Valid() && pend.v != dutW.v && (dutW.v == old(dutW.v) || fresh(dutW.v))
        invariant ok ==> WriteMatcher.MatchAll(c, Abs(), ds[k - pend.head..]) == WriteMatcher.MatchAll(c, start, ds)
        invariant !ok ==> WriteMatcher.Reply(Abs(), false) == WriteMatcher.MatchAll(c, start, ds)
      {
        ghost var now, rest := Abs(), ds[k - pend.head..];
        var e := pend.v[k];
        assert rest[0] == e && rest[1..] == ds[k + 1 - pend.head..];
        ok := MatchWrite(e.addr, e.val);
        assert WriteMatcher.Reply(Abs(), ok)
            == WriteMatcher.MatchWrite(c, now, WriteMatcher.Write(rest[0].addr, rest[0].val));
        k := k + 1;
      }
    }
  }

  lemma {:induction false} AdvanceMarked(q: seq<Ev>, exp: seq<Ev>, n: nat)
    requires n <= |q| == |exp| && (forall k :: 0 <= k < n ==> q[k].done) && q[n..] == exp[n..]
    ensures WriteMatcher.Advance(q) == WriteMatcher.Advance(exp[n..])
  {
    if n > 0 {
      AdvanceMarked(q[1..], exp[1..], n - 1);
    } else {
      assert q == exp;
    }
  }

  /** The I/O port side: z486's outputs match the reference's in order. */
  class Outputs {
    var expIo: seq<WriteMatcher.Write>
    var dutIo: seq<WriteMatcher.Write>

    constructor ()
      ensures expIo == [] && dutIo == []
    {
      expIo, dutIo := [], [];
    }

    /** One z486 output, as match_io. */
    method MatchIo(port: int, val: Byte) returns (ok: bool)
      modifies this
      ensures CosimRun.IoReply(expIo, dutIo, ok)
           == CosimRun.MatchIo(old(expIo), old(dutIo), WriteMatcher.Write(port, val))
    {
      var w := WriteMatcher.Write(port, val);
      if expIo == [] {
        dutIo := dutIo + [w];
        return true;
      }
      if expIo[0].addr != port || expIo[0].val != val {
        return false;
      }
      expIo := expIo[1..];
      return true;
    }

    /** The step's outputs join the expected ones; those z486 performed first
        are matched now. */
    method CommitOutputs(stage: seq<WriteMatcher.Write>) returns (ok: bool)
      modifies this
      ensures CosimRun.IoReply(expIo, dutIo, ok)
           == CosimRun.MatchAllIo(old(expIo) + stage, [], old(dutIo))
    {
      expIo := expIo + stage;
      var pend := dutIo;
      dutIo := [];
      ghost var start := expIo;
      var k := 0;
      ok := true;
      while k < |pend| && ok
        invariant 0 <= k <= |pend|
        invariant ok ==> CosimRun.MatchAllIo(expIo, dutIo, pend[k..]) == CosimRun.MatchAllIo(start, [], pend)
        invariant !ok ==> CosimRun.IoReply(expIo, dutIo, false) == CosimRun.MatchAllIo(start, [], pend)
      {
        ok := MatchIo(pend[k].addr, pend[k].val);
        k := k + 1;
        assert pend[k - 1..][1..] == pend[k..];
      }
    }
  }
}
