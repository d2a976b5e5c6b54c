/** What one z486 write does to the matcher, as a function of its state. */
module WriteMatcher {
  import opened Platform
  import opened EventQueue

  /** The reference writes z486 has yet to perform (`exp`), the z486 writes
      the reference has yet to perform (`dut`), and the reference's RAM. */
  datatype Match = Match(exp: seq<Ev>, dut: seq<Ev>, ram: seq<Byte>)
  datatype Reply = Reply(m: Match, ok: bool)
  datatype Write = Write(addr: int, val: Byte)

  function Advance(q: seq<Ev>): (r: seq<Ev>)
    ensures |r| <= |q|
    ensures r != [] ==> !r[0].done
  {
    if q != [] && q[0].done then Advance(q[1..]) else q
  }

  /** How many entries at the front of q belong to instruction grp. */
  function GroupLen(q: seq<Ev>, grp: nat): (n: nat)
    ensures n <= |q|
    ensures forall k :: 0 <= k < n ==> q[k].grp == grp
    ensures n < |q| ==> q[n].grp != grp
  {
    if q == [] || q[0].grp != grp then 0 else 1 + GroupLen(q[1..], grp)
  }

  /** The index of the first unmatched write to phys, or |q|. */
  function FirstPending(q: seq<Ev>, phys: int): (i: nat)
    ensures i <= |q|
    ensures i < |q| ==> !q[i].done && q[i].addr == phys
    ensures forall k :: 0 <= k < i ==> q[k].done || q[k].addr != phys
  {
    if q == [] || (!q[0].done && q[0].addr == phys) then 0 else 1 + FirstPending(q[1..], phys)
  }

  predicate OnlySilent(q: seq<Ev>) {
    forall e :: e in q ==> e.done || e.silent
  }

  function DutEvent(w: Write): Ev {
    Ev(w.addr, w.val, false, false, false, 0)
  }

  function MatchWrite(c: Config, m: Match, w: Write): (r: Reply)
    requires c.ramBytes <= |m.ram|
    ensures |r.m.ram| == |m.ram|
    decreases |m.exp|
  {
    var exp := Advance(m.exp);
    if exp == [] then
      Reply(m.(exp := [], dut := m.dut + [DutEvent(w)]), true)
    else
      var n := GroupLen(exp, exp[0].grp);
      var i := FirstPending(exp[..n], w.addr);
      if i < n then
        var e := exp[i];
        if e.val == w.val then
          Reply(m.(exp := Advance(exp[i := e.(done := true)])), true)
        else if c.lenient && e.fpu then
          var ram := if InRam(c, w.addr) then m.ram[w.addr := w.val] else m.ram;
          Reply(m.(exp := Advance(exp[i := e.(done := true)]), ram := ram), true)
        else
          Reply(m.(exp := exp), false)
      else if InRam(c, w.addr) && m.ram[w.addr] == w.val then
        Reply(m.(exp := exp), true)
      else if OnlySilent(exp[..n]) then
        MatchWrite(c, m.(exp := exp[n..]), w)
      else
        Reply(m.(exp := exp), false)
  }

  /** The z486 writes ds, in order, up to the first that does not match. */
  function MatchAll(c: Config, m: Match, ds: seq<Ev>): (r: Reply)
    requires c.ramBytes <= |m.ram|
    ensures |r.m.ram| == |m.ram|
    decreases ds
  {
    if ds == [] then Reply(m, true)
    else
      var r := MatchWrite(c, m, Write(ds[0].addr, ds[0].val));
      if r.ok then MatchAll(c, r.m, ds[1..]) else r
  }

  /** The step's staged writes join the expected ones as instruction grp;
      z486 writes that arrived first are matched now. */
  function Commit(c: Config, m: Match, stage: seq<Ev>, grp: nat): (r: Reply)
    requires c.ramBytes <= |m.ram|
    ensures |r.m.ram| == |m.ram|
  {
    MatchAll(c, Match(m.exp + Tagged(stage, grp), [], m.ram), m.dut)
  }

  function Tagged(stage: seq<Ev>, grp: nat): (r: seq<Ev>)
    ensures |r| == |stage|
    ensures forall k :: 0 <= k < |r| ==> r[k] == stage[k].(grp := grp)
  {
    seq(|stage|, k requires 0 <= k < |stage| => stage[k].(grp := grp))
  }

  // ---- The specification, branch by branch ----

  function Taken(c: Config, m: Match, w: Write, i: nat): Reply
    requires i < |m.exp| && c.ramBytes <= |m.ram|
  {
    var e := m.exp[i];
    var exp := Advance(m.exp[i := e.(done := true)]);
    if e.val == w.val then Reply(m.(exp := exp), true)
    else if c.lenient && e.fpu then
      Reply(m.(exp := exp, ram := if InRam(c, w.addr) then m.ram[w.addr := w.val] else m.ram), true)
    else Reply(m, false)
  }

  ghost predicate Searched(c: Config, m: Match, w: Write, exp: seq<Ev>, n: nat, i: nat) {
    && c.ramBytes <= |m.ram|
    && exp == Advance(m.exp) && exp != [] && n == GroupLen(exp, exp[0].grp)
    && n <= |exp| && i == FirstPending(exp[..n], w.addr)
  }

  lemma SkipDone(c: Config, m: Match, m': Match, w: Write)
    requires c.ramBytes <= |m.ram| && m' == m.(exp := Advance(m.exp))
    ensures MatchWrite(c, m, w) == MatchWrite(c, m', w)
  {
    assert Advance(m'.exp) == m'.exp;
  }

  lemma Found(c: Config, m: Match, w: Write, exp: seq<Ev>, n: nat, i: nat)
    requires Searched(c, m, w, exp, n, i) && i < n
    ensures exp[i].addr == w.addr && !exp[i].done
    ensures MatchWrite(c, m, w) == Taken(c, m.(exp := exp), w, i)
  {
    assert exp[..n][i] == exp[i];
  }

  lemma Rewritten(c: Config, m: Match, w: Write, exp: seq<Ev>, n: nat)
    requires Searched(c, m, w, exp, n, n) && InRam(c, w.addr) && m.ram[w.addr] == w.val
    ensures MatchWrite(c, m, w) == Reply(m.(exp := exp), true)
  {
  }

  lemma NotFound(c: Config, m: Match, w: Write, exp: seq<Ev>, n: nat)
    requires Searched(c, m, w, exp, n, n) && !(InRam(c, w.addr) && m.ram[w.addr] == w.val)
    ensures 0 < n
    ensures !OnlySilent(exp[..n]) ==>
              MatchWrite(c, m, w) == Reply(m.(exp := exp), false)
    ensures OnlySilent(exp[..n]) ==>
              MatchWrite(c, m, w)
              == MatchWrite(c, m.(exp := Advance(exp[n..])), w)
  {
  }

  // ---- The reference's own stores ----

  /** The RAM index of a bus address: ram has a power-of-two size, so the
      mask is a remainder. */
  function Index(ram: seq<Byte>, phys: int): (i: nat)
    requires ram != []
    ensures i < |ram|
  {
    phys % |ram|
  }

  datatype Stored = Stored(ram: seq<Byte>, stage: seq<Ev>)

  /** wr_hook and the store behind it: every byte is staged for comparison,
      and stored when it is writable RAM. */
  function StoreByte(c: Config, s: Stored, phys: int, val: Byte, fpu: bool): (r: Stored)
    requires 0 < |s.ram| && c.ramBytes <= |s.ram|
    ensures |r.ram| == |s.ram|
  {
    var silent := InRam(c, phys) && s.ram[Index(s.ram, phys)] == val;
    Stored(if InRam(c, phys) then s.ram[Index(s.ram, phys) := val] else s.ram,
           s.stage + [Ev(phys, val, false, silent, fpu, 0)])
  }

  function StoreAll(c: Config, s: Stored, ws: seq<Write>, fpu: bool): (r: Stored)
    requires 0 < |s.ram| && c.ramBytes <= |s.ram|
    ensures |r.ram| == |s.ram|
    decreases ws
  {
    if ws == [] then s
    else StoreAll(c, StoreByte(c, s, ws[0].addr, ws[0].val, fpu), ws[1..], fpu)
  }
}
