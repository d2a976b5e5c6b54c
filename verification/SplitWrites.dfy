/** Writes that cross a page boundary: what reaches memory when one of the
    two pages faults. */
module SplitWrites {
  import opened Platform
  import opened EventQueue
  import opened WriteMatcher
  import opened Paging
  import opened Speculation
  import opened Rollback

  /** The bytes bs at consecutive bus addresses. */
  function From(phys: int, bs: seq<Byte>): (r: seq<Write>)
    ensures |r| == |bs|
  {
    seq(|bs|, i requires 0 <= i < |bs| => Write(phys + i, bs[i]))
  }

  function Pairs(pas: seq<Word32>, bs: seq<Byte>): (r: seq<Write>)
    requires |pas| <= |bs|
    ensures |r| == |pas|
  {
    seq(|pas|, i requires 0 <= i < |pas| => Write(pas[i], bs[i]))
  }

  lemma {:induction false} EachStores(env: Env, s: Sim, pas: seq<Word32>, bs: seq<Byte>)
    requires Good(env, s) && |pas| == |bs|
    ensures var r := StoreEach(env, s, pas, bs);
            && Stored(r.ram, r.stage) == StoreAll(env.c, Stored(s.ram, s.stage), Pairs(pas, bs), env.fpu)
            && r == s.(ram := r.ram, stage := r.stage, log := r.log)
    decreases pas
  {
    if pas != [] {
      assert Pairs(pas, bs)[1..] == Pairs(pas[1..], bs[1..]);
      EachStores(env, StoreLogged(env, s, pas[0], bs[0]), pas[1..], bs[1..]);
    }
  }

  lemma {:induction false} PartialStores(env: Env, s: Sim, pas: seq<Word32>, bs: seq<Byte>)
    requires Good(env, s) && |pas| <= |bs| && |s.partial| + |pas| <= MAX_PARTIAL
    ensures var r := StorePartial(env, s, pas, bs);
            && Stored(r.ram, r.stage) == StoreAll(env.c, Stored(s.ram, s.stage), Pairs(pas, bs), env.fpu)
            && r.partial == s.partial + Pairs(pas, bs)
            && r == s.(ram := r.ram, stage := r.stage, log := r.log, partial := r.partial)
    decreases pas
  {
    if pas != [] {
      var w := Write(pas[0], bs[0]);
      assert Pairs(pas, bs) == [w] + Pairs(pas[1..], bs[1..]);
      var s1 := StoreLogged(env, s, pas[0], bs[0]);
      PartialStores(env, s1.(partial := s1.partial + [w]), pas[1..], bs[1..]);
      assert (s.partial + [w]) + Pairs(pas[1..], bs[1..]) == s.partial + Pairs(pas, bs);
    } else {
      assert Pairs(pas, bs) == [];
      assert s.partial + [] == s.partial;
    }
  }

  // ---- Translation, page by page ----

  /** n bytes from lin that lie in its page translate as its first does. */
  lemma {:induction false} TranslatePage(env: Env, cpu: Cpu, ram: seq<Byte>, lin: Word32, n: nat, write: bool,
                                         done: seq<Word32>, k: nat, f: Word32, pas: seq<Word32>)
    requires ram != [] && cpu.abrt == 0 && |done| + k <= n
    requires k > 0 ==> Walk(cpu, ram, env.a20, At(lin, |done|), write) == Frame(f)
    requires At(lin, |done|) % PAGE + k <= PAGE
    requires |pas| == k && (forall i :: 0 <= i < k ==> pas[i] == f + i)
    ensures TranslateAll(env, cpu, ram, lin, n, write, done)
         == TranslateAll(env, cpu, ram, lin, n, write, done + pas)
    decreases k
  {
    if k == 0 {
      assert done + pas == done;
    } else {
      var here := At(lin, |done|);
      var done' := done + [f];
      assert done + pas == done' + pas[1..];
      if k > 1 {
        var next := At(lin, |done'|);
        NextByte(lin, |done|);
        WalkByPage(cpu, ram, env.a20, here, write);
        WalkByPage(cpu, ram, env.a20, next, write);
        TranslatePage(env, cpu, ram, lin, n, write, done', k - 1, f + 1, pas[1..]);
      } else {
        assert pas[1..] == [] && done' + [] == done';
      }
    }
  }

  lemma NextByte(lin: Word32, i: nat)
    requires At(lin, i) % PAGE + 1 < PAGE
    ensures At(lin, i + 1) == At(lin, i) + 1
    ensures PageBase(At(lin, i + 1)) == PageBase(At(lin, i))
    ensures At(lin, i + 1) % PAGE == At(lin, i) % PAGE + 1
  {
    NextWord(lin + i);
    NextInPage(At(lin, i));
  }

  lemma NextWord(x: nat)
    requires x % 0x1_0000_0000 % PAGE + 1 < PAGE
    ensures (x + 1) % 0x1_0000_0000 == x % 0x1_0000_0000 + 1
  {
    assert 0xFFFF_FFFF % PAGE == PAGE - 1;
  }

  lemma NextInPage(x: nat)
    requires x % PAGE + 1 < PAGE
    ensures (x + 1) % PAGE == x % PAGE + 1
  {
  }

  /** How many of n bytes from lin lie in its page. */
  function FirstPart(lin: Word32, n: nat): (k: nat)
    ensures k <= n && (n > 0 ==> k > 0)
  {
    if n <= PAGE - lin % PAGE then n else PAGE - lin % PAGE
  }

  lemma SecondPage(lin: Word32, n: nat)
    requires FirstPart(lin, n) < n
    ensures At(lin, FirstPart(lin, n)) % PAGE == 0
  {
  }

  function Span(phys: Word32, k: nat): (pas: seq<Word32>)
    requires phys + k <= 0x1_0000_0000
    ensures |pas| == k && (forall i :: 0 <= i < k ==> pas[i] == phys + i)
  {
    seq(k, i requires 0 <= i < k => (phys + i) as Word32)
  }

  /** A frame ends within the address space. */
  lemma FrameEnd(cpu: Cpu, ram: seq<Byte>, a20: bool, lin: Word32, write: bool)
    requires ram != [] && Walk(cpu, ram, a20, lin, write).Frame?
    ensures Walk(cpu, ram, a20, lin, write).phys + (PAGE - lin % PAGE) <= 0x1_0000_0000
  {
    var end := PageBase(lin) + (PAGE - 1);
    assert PageBase(end) == PageBase(lin);
    WalkByPage(cpu, ram, a20, lin, write);
    WalkByPage(cpu, ram, a20, end, write);
  }

  /** The bus addresses of n bytes at lin, from its one or two pages. */
  lemma TranslateByPages(env: Env, cpu: Cpu, ram: seq<Byte>, lin: Word32, n: nat, write: bool)
    requires ram != [] && cpu.abrt == 0 && 0 < n <= MAX_PARTIAL
    ensures var k := FirstPart(lin, n);
            var t := TranslateAll(env, cpu, ram, lin, n, write, []);
            match Walk(cpu, ram, env.a20, lin, write)
            case PageFault(code) => t == FaultAt([], Faulted(cpu, lin, code))
            case Frame(f) =>
              && f + k <= 0x1_0000_0000
              && if k == n then t == Pages(Span(f, k))
                 else
                   && At(lin, k) % PAGE == 0
                   && match Walk(cpu, ram, env.a20, At(lin, k), write)
                      case PageFault(code) => t == FaultAt(Span(f, k), Faulted(cpu, At(lin, k), code))
                      case Frame(g) => g + (n - k) <= 0x1_0000_0000 && t == Pages(Span(f, k) + Span(g, n - k))
  {
    var k := FirstPart(lin, n);
    assert At(lin, 0) == lin;
    match Walk(cpu, ram, env.a20, lin, write) {
      case PageFault(_) =>
      case Frame(f) =>
        FrameEnd(cpu, ram, env.a20, lin, write);
        TranslatePage(env, cpu, ram, lin, n, write, [], k, f, Span(f, k));
        assert [] + Span(f, k) == Span(f, k);
        if k < n {
          SecondPage(lin, n);
          match Walk(cpu, ram, env.a20, At(lin, k), write) {
            case PageFault(_) =>
            case Frame(g) =>
              FrameEnd(cpu, ram, env.a20, At(lin, k), write);
              TranslatePage(env, cpu, ram, lin, n, write, Span(f, k), n - k, g, Span(g, n - k));
          }
        }
    }
  }

  /** What reaches memory of a write: all of it, nothing, or its first page's
      part, which is then recorded. */
  ghost predicate Leaves(env: Env, s: Sim, r: Sim, ws: seq<Write>, partial: seq<Write>, cpu: Cpu)
    requires Good(env, s)
  {
    && Stored(r.ram, r.stage) == StoreAll(env.c, Stored(s.ram, s.stage), ws, env.fpu)
    && r.partial == partial && r.cpu == cpu
  }

  lemma StoresAll(env: Env, s: Sim, lin: Word32, bs: seq<Byte>, pas: seq<Word32>, ws: seq<Write>)
    requires Good(env, s) && |pas| == |bs| && Pairs(pas, bs) == ws
    requires TranslateAll(env, s.cpu, s.ram, lin, |bs|, true, []) == Pages(pas)
    ensures Leaves(env, s, WriteN(env, s, lin, bs), ws, s.partial, s.cpu)
  {
    EachStores(env, s, pas, bs);
  }

  lemma StoresFirst(env: Env, s: Sim, lin: Word32, bs: seq<Byte>, pas: seq<Word32>, ws: seq<Write>, cpu: Cpu)
    requires Good(env, s) && 0 < |pas| < |bs| <= MAX_PARTIAL && Pairs(pas, bs) == ws && s.partial == []
    requires TranslateAll(env, s.cpu, s.ram, lin, |bs|, true, []) == FaultAt(pas, cpu)
    requires At(lin, |pas|) % PAGE == 0
    ensures Leaves(env, s, WriteN(env, s, lin, bs), ws, ws, cpu)
  {
    PartialStores(env, s.(cpu := cpu), pas, bs);
    assert [] + ws == ws;
  }

  lemma PairsSpans(f: Word32, k: nat, g: Word32, bs: seq<Byte>)
    requires k <= |bs| && f + k <= 0x1_0000_0000 && g + (|bs| - k) <= 0x1_0000_0000
    ensures Pairs(Span(f, k), bs) == From(f, bs[..k])
    ensures Pairs(Span(f, k) + Span(g, |bs| - k), bs) == From(f, bs[..k]) + From(g, bs[k..])
  {
  }

  /** A write within a page: all of it, or nothing if the page faults. */
  lemma WriteInPage(env: Env, s: Sim, lin: Word32, bs: seq<Byte>)
    requires Good(env, s) && s.cpu.abrt == 0 && s.partial == [] && 0 < |bs| <= MAX_PARTIAL
    requires FirstPart(lin, |bs|) == |bs|
    ensures var r := WriteN(env, s, lin, bs);
            match Walk(s.cpu, s.ram, env.a20, lin, true)
            case PageFault(code) => r == s.(cpu := Faulted(s.cpu, lin, code))
            case Frame(f) => Leaves(env, s, r, From(f, bs), [], s.cpu)
  {
    TranslateByPages(env, s.cpu, s.ram, lin, |bs|, true);
    match Walk(s.cpu, s.ram, env.a20, lin, true) {
      case PageFault(_) =>
      case Frame(f) =>
        PairsSpans(f, |bs|, 0, bs);
        assert bs[..|bs|] == bs;
        StoresAll(env, s, lin, bs, Span(f, |bs|), From(f, bs));
    }
  }

  /** A write across a page boundary: all of it, nothing if the first page
      faults, and if the second does, exactly the bytes below the boundary,
      with the fault reported at the boundary. */
  lemma WriteAcrossPages(env: Env, s: Sim, lin: Word32, bs: seq<Byte>)
    requires Good(env, s) && s.cpu.abrt == 0 && s.partial == [] && 0 < |bs| <= MAX_PARTIAL
    requires FirstPart(lin, |bs|) < |bs|
    ensures var k := FirstPart(lin, |bs|);
            var r := WriteN(env, s, lin, bs);
            && At(lin, k) % PAGE == 0
            && match Walk(s.cpu, s.ram, env.a20, lin, true)
               case PageFault(code) => r == s.(cpu := Faulted(s.cpu, lin, code))
               case Frame(f) =>
                 match Walk(s.cpu, s.ram, env.a20, At(lin, k), true)
                 case PageFault(code) =>
                   Leaves(env, s, r, From(f, bs[..k]), From(f, bs[..k]), Faulted(s.cpu, At(lin, k), code))
                 case Frame(g) => Leaves(env, s, r, From(f, bs[..k]) + From(g, bs[k..]), [], s.cpu)
  {
    var n, k := |bs|, FirstPart(lin, |bs|);
    SecondPage(lin, n);
    TranslateByPages(env, s.cpu, s.ram, lin, n, true);
    match Walk(s.cpu, s.ram, env.a20, lin, true) {
      case PageFault(_) =>
      case Frame(f) =>
        match Walk(s.cpu, s.ram, env.a20, At(lin, k), true) {
          case PageFault(code) =>
            PairsSpans(f, k, 0, bs);
            StoresFirst(env, s, lin, bs, Span(f, k), From(f, bs[..k]), Faulted(s.cpu, At(lin, k), code));
          case Frame(g) =>
            PairsSpans(f, k, g, bs);
            StoresAll(env, s, lin, bs, Span(f, k) + Span(g, n - k), From(f, bs[..k]) + From(g, bs[k..]));
        }
    }
  }
}
