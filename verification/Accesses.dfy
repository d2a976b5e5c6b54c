/** What an instruction's accesses reach: where their bytes are, what a read
    gives, and that what was written is read. */
module Accesses {
  import opened Platform
  import opened EventQueue
  import opened WriteMatcher
  import opened Paging
  import opened PageTables
  import opened Speculation
  import RunSoundness

  // ---- Where the bytes of an access are ----

  /** All of them translate, to these bus addresses. */
  ghost predicate Translates(env: Env, s: Sim, lin: Word32, n: nat, write: bool, pas: seq<Word32>)
    requires Good(env, s)
  {
    TranslateAll(env, s.cpu, s.ram, lin, n, write, []) == Pages(pas)
  }

  /** Byte i of an access from lin on; addresses wrap at 4G. */
  function ByteAt(lin: Word32, i: nat): Word32 {
    (lin + i) % 0x1_0000_0000
  }

  /** How many bytes from byte i on are permitted, up to the first that is
      not. */
  ghost function PermittedFrom(cpu: Cpu, m: map<nat, Leaf>, lin: Word32, i: nat, n: nat, write: bool): (k: nat)
    requires i <= n
    ensures i <= k <= n
    ensures forall j :: i <= j < k ==> Permitted(cpu, m, ByteAt(lin, j) / 4096, write)
    ensures k < n ==> !Permitted(cpu, m, ByteAt(lin, k) / 4096, write)
    decreases n - i
  {
    if i == n || !Permitted(cpu, m, ByteAt(lin, i) / 4096, write) then i
    else PermittedFrom(cpu, m, lin, i + 1, n, write)
  }

  /** The bytes' addresses are those the map gives. */
  ghost predicate Mapped(a20: bool, m: map<nat, Leaf>, lin: Word32, pas: seq<Word32>) {
    forall i :: 0 <= i < |pas| ==>
      var a := ByteAt(lin, i);
      && a / 4096 in m && m[a / 4096].frame < 0x10_0000
      && pas[i] == PlatformPhys(a20, m[a / 4096].frame * 4096 + a % 4096)
  }

  /** A page fault at the byte at a: its address, or that of its 16 bytes when
      it was fetched, and what the error code tells. */
  ghost predicate FaultsAt(cpu: Cpu, m: map<nat, Leaf>, a: Word32, write: bool, after: Cpu) {
    && after == cpu.(cr2 := if cpu.fetching then a / 16 * 16 else a, abrt := 14, abrtError := after.abrtError)
    && after.abrtError < 8
    && (after.abrtError % 2 == 1 <==> a / 4096 in m)
    && (after.abrtError / 2 % 2 == 1 <==> write)
    && (after.abrtError / 4 == 1 <==> cpu.user)
  }

  lemma ByteByMap(env: Env, cpu: Cpu, ram: seq<Byte>, a: Word32, write: bool, m: map<nat, Leaf>)
    requires ram != [] && cpu.cr0 / 0x8000_0000 == 1 && LaidOut(ram, cpu.cr3, m)
    ensures var r := Walk(cpu, ram, env.a20, a, write);
            if Permitted(cpu, m, a / 4096, write) then
              && a / 4096 in m && m[a / 4096].frame < 0x10_0000
              && r == Frame(PlatformPhys(env.a20, m[a / 4096].frame * 4096 + a % 4096))
            else r.PageFault? && FaultsAt(cpu, m, a, write, Faulted(cpu, a, r.code))
  {
    WalkFollowsMap(cpu, ram, env.a20, a, write, m);
    hide Walk, LaidOut, PlatformPhys;
  }

  lemma {:induction false} TranslateByMap(env: Env, cpu: Cpu, ram: seq<Byte>, lin: Word32, n: nat, write: bool,
                                          m: map<nat, Leaf>, done: seq<Word32>)
    requires ram != [] && cpu.cr0 / 0x8000_0000 == 1 && LaidOut(ram, cpu.cr3, m) && cpu.abrt == 0
    requires |done| <= n && Mapped(env.a20, m, lin, done)
    ensures var t, k := TranslateAll(env, cpu, ram, lin, n, write, done), PermittedFrom(cpu, m, lin, |done|, n, write);
            && |t.pas| == k && Mapped(env.a20, m, lin, t.pas)
            && (t.Pages? <==> k == n)
            && (t.FaultAt? ==> FaultsAt(cpu, m, ByteAt(lin, k), write, t.cpu))
    decreases n - |done|
  {
    hide Walk, LaidOut, PlatformPhys, Permitted, FaultsAt, Faulted;
    var i := |done|;
    if i < n {
      var a := ByteAt(lin, i);
      assert a == At(lin, i);
      ByteByMap(env, cpu, ram, a, write, m);
      if Permitted(cpu, m, a / 4096, write) {
        var done' := done + [Walk(cpu, ram, env.a20, a, write).phys];
        TranslateByMap(env, cpu, ram, lin, n, write, m, done');
      }
    }
  }

  /** An access by the map: its bytes are where the map says, or the first that
      is not permitted faults. */
  lemma AccessByMap(env: Env, s: Sim, lin: Word32, n: nat, write: bool, m: map<nat, Leaf>)
    requires Good(env, s) && s.cpu.cr0 / 0x8000_0000 == 1 && LaidOut(s.ram, s.cpu.cr3, m) && s.cpu.abrt == 0
    ensures var t, k := TranslateAll(env, s.cpu, s.ram, lin, n, write, []), PermittedFrom(s.cpu, m, lin, 0, n, write);
            && |t.pas| == k && Mapped(env.a20, m, lin, t.pas)
            && (t.Pages? <==> k == n)
            && (t.FaultAt? ==> FaultsAt(s.cpu, m, ByteAt(lin, k), write, t.cpu))
  {
    TranslateByMap(env, s.cpu, s.ram, lin, n, write, m, []);
  }

  // ---- What a read gives ----

  predicate IsDevice(phys: int) {
    0xA_0000 <= phys < 0xC_0000
  }

  /** How many device bytes are among the first i. */
  function Devices(pas: seq<Word32>, i: nat): nat
    requires i <= |pas|
  {
    if i == 0 then 0 else Devices(pas, i - 1) + (if IsDevice(pas[i - 1]) then 1 else 0)
  }

  /** z486 read the same device bytes, in the same order, from its entry c on. */
  ghost predicate InStep(devRd: seq<Write>, c: nat, pas: seq<Word32>, from: nat) {
    && from <= |pas|
    && forall i :: from <= i < |pas| && IsDevice(pas[i]) ==>
         c + Devices(pas, i) < |devRd| && devRd[c + Devices(pas, i)].addr == pas[i]
  }

  /** The byte a read finds at phys: z486's data from a device, all ones where
      nothing is, and what is in RAM, protected or not. */
  function Found(env: Env, s: Sim, phys: Word32, dev: nat): Byte
    requires Good(env, s) && (IsDevice(phys) ==> dev < |env.devRd|)
  {
    if IsDevice(phys) then env.devRd[dev].val
    else if phys >= env.c.ramBytes then 0xFF
    else s.ram[phys]
  }

  lemma OneByte(env: Env, s: Sim, phys: Word32)
    requires Good(env, s) && (IsDevice(phys) ==> s.devCur < |env.devRd| && env.devRd[s.devCur].addr == phys)
    ensures var r := ReadByte(env, s, phys);
            && r.1 == Found(env, s, phys, s.devCur)
            && r.0 == s.(devCur := s.devCur + (if IsDevice(phys) then 1 else 0), devLast := r.0.devLast)
  {
    if !IsDevice(phys) && phys < env.c.ramBytes {
      RunSoundness.IndexInRam(s.ram, phys);
    }
  }

  /** The bytes so far are those found. */
  ghost predicate FoundAll(env: Env, s: Sim, c: nat, pas: seq<Word32>, b: seq<Byte>)
    requires Good(env, s)
  {
    && |b| <= |pas|
    && forall i :: 0 <= i < |b| ==>
         && (IsDevice(pas[i]) ==> c + Devices(pas, i) < |env.devRd|)
         && b[i] == Found(env, s, pas[i], c + Devices(pas, i))
  }

  lemma {:induction false} PrefixPages(env: Env, cpu: Cpu, ram: seq<Byte>, lin: Word32, n: nat, write: bool,
                                       done: seq<Word32>)
    requires ram != [] && |done| <= n
    ensures done <= TranslateAll(env, cpu, ram, lin, n, write, done).pas
    decreases n - |done|
  {
    hide Walk;
    if |done| < n && cpu.abrt == 0 {
      match Walk(cpu, ram, env.a20, At(lin, |done|), write) {
        case PageFault(_) =>
        case Frame(phys) => PrefixPages(env, cpu, ram, lin, n, write, done + [phys]);
      }
    }
  }

  lemma {:induction false} ReadFrom(env: Env, s: Sim, t: Sim, lin: Word32, n: nat, pas: seq<Word32>, got: seq<Byte>)
    requires Good(env, s) && Good(env, t) && s.cpu.abrt == 0 && |got| <= n == |pas|
    requires TranslateAll(env, s.cpu, s.ram, lin, n, false, pas[..|got|]) == Pages(pas)
    requires t == s.(devCur := s.devCur + Devices(pas, |got|), devLast := t.devLast)
    requires InStep(env.devRd, s.devCur, pas, |got|) && FoundAll(env, s, s.devCur, pas, got)
    ensures var g := ReadN(env, t, lin, n, got);
            && g.resp.Bytes? && |g.resp.b| == n && FoundAll(env, s, s.devCur, pas, g.resp.b)
            && g.s == s.(devCur := s.devCur + Devices(pas, n), devLast := g.s.devLast)
    decreases n - |got|
  {
    hide ReadByte, Found, FoundAll, ReadN, TranslateAll, InStep, Devices;
    var i := |got|;
    if i < n {
      NextPage(env, s.cpu, s.ram, lin, n, pas, i);
      NextInStep(env.devRd, s.devCur, pas, i);
      UnfoldRead(env, t, lin, n, got, pas[i]);
      OneByte(env, t, pas[i]);
      FoundAlike(env, s, t, pas[i], t.devCur);
      var r := ReadByte(env, t, pas[i]);
      FoundNext(env, s, s.devCur, pas, got, r.1);
      ReadFrom(env, s, r.0, lin, n, pas, got + [r.1]);
    } else {
      ReadDone(env, t, lin, n, got);
    }
  }

  lemma NextPage(env: Env, cpu: Cpu, ram: seq<Byte>, lin: Word32, n: nat, pas: seq<Word32>, i: nat)
    requires ram != [] && i < n == |pas| && cpu.abrt == 0
    requires TranslateAll(env, cpu, ram, lin, n, false, pas[..i]) == Pages(pas)
    ensures Walk(cpu, ram, env.a20, At(lin, i), false) == Frame(pas[i])
    ensures TranslateAll(env, cpu, ram, lin, n, false, pas[..i + 1]) == Pages(pas)
  {
    hide Walk;
    var w := Walk(cpu, ram, env.a20, At(lin, i), false);
    assert w.Frame?;
    PrefixPages(env, cpu, ram, lin, n, false, pas[..i] + [w.phys]);
    assert (pas[..i] + [w.phys])[i] == pas[i];
    assert pas[..i] + [w.phys] == pas[..i + 1];
  }

  lemma NextInStep(devRd: seq<Write>, c: nat, pas: seq<Word32>, i: nat)
    requires InStep(devRd, c, pas, i) && i < |pas|
    ensures InStep(devRd, c, pas, i + 1)
    ensures IsDevice(pas[i]) ==> c + Devices(pas, i) < |devRd| && devRd[c + Devices(pas, i)].addr == pas[i]
    ensures Devices(pas, i + 1) == Devices(pas, i) + (if IsDevice(pas[i]) then 1 else 0)
  {
  }

  lemma UnfoldRead(env: Env, t: Sim, lin: Word32, n: nat, got: seq<Byte>, phys: Word32)
    requires Good(env, t) && t.cpu.abrt == 0 && |got| < n
    requires Walk(t.cpu, t.ram, env.a20, At(lin, |got|), false) == Frame(phys)
    ensures var r := ReadByte(env, t, phys);
            ReadN(env, t, lin, n, got) == ReadN(env, r.0, lin, n, got + [r.1])
  {
    hide Walk, ReadByte;
  }

  lemma ReadDone(env: Env, t: Sim, lin: Word32, n: nat, got: seq<Byte>)
    requires Good(env, t) && |got| == n
    ensures ReadN(env, t, lin, n, got) == Got(t, Bytes(got))
  {
  }

  lemma FoundNext(env: Env, s: Sim, c: nat, pas: seq<Word32>, got: seq<Byte>, x: Byte)
    requires Good(env, s) && FoundAll(env, s, c, pas, got) && |got| < |pas|
    requires IsDevice(pas[|got|]) ==> c + Devices(pas, |got|) < |env.devRd|
    requires x == Found(env, s, pas[|got|], c + Devices(pas, |got|))
    ensures FoundAll(env, s, c, pas, got + [x])
  {
    hide Found, Devices;
  }

  lemma FoundAlike(env: Env, s: Sim, t: Sim, phys: Word32, dev: nat)
    requires Good(env, s) && Good(env, t) && t.ram == s.ram && (IsDevice(phys) ==> dev < |env.devRd|)
    ensures Found(env, s, phys, dev) == Found(env, t, phys, dev)
  {
  }

  /** A read whose bytes translate, and whose device bytes z486 has read, too,
      resumes the program with the bytes found, low address first, and changes
      nothing but the place in z486's data. */
  lemma ReadGives(env: Env, p: Program, s: Sim, lin: Word32, n: nat, pas: seq<Word32>)
    requires Good(env, s) && s.cpu.abrt == 0 && Translates(env, s, lin, n, false, pas)
    requires InStep(env.devRd, s.devCur, pas, 0)
    ensures var r := Perform(env, p, s, Read(lin, n));
            exists b: seq<Byte> ::
              && |b| == n && FoundAll(env, s, s.devCur, pas, b)
              && r == s.(devCur := s.devCur + Devices(pas, n), devLast := r.devLast, cpu := p.resume(s.cpu, Bytes(b)))
  {
    hide TranslateAll, ReadN, FoundAll;
    NoneFound(env, s, pas);
    assert pas[..0] == [];
    ReadFrom(env, s, s, lin, n, pas, []);
    var b := ReadN(env, s, lin, n, []).resp.b;
    assert |b| == n && FoundAll(env, s, s.devCur, pas, b);
  }

  lemma NoneFound(env: Env, s: Sim, pas: seq<Word32>)
    requires Good(env, s)
    ensures FoundAll(env, s, s.devCur, pas, [])
  {
  }

  /** A read with a byte that does not translate gives all ones and the fault;
      no byte past it is asked for. */
  lemma {:induction false} ReadFaults(env: Env, s: Sim, t: Sim, lin: Word32, n: nat, got: seq<Byte>,
                                      pas: seq<Word32>, cpu: Cpu)
    requires Good(env, s) && Good(env, t) && |got| <= |pas| && |got| <= n && t.cpu == s.cpu && t.ram == s.ram
    requires TranslateAll(env, s.cpu, s.ram, lin, n, false, pas[..|got|]) == FaultAt(pas, cpu)
    ensures var g := ReadN(env, t, lin, n, got);
            g.resp == Ones && g.s.cpu == cpu && g.s.ram == s.ram && g.s.stage == t.stage && g.s.outs == t.outs
    decreases n - |got|
  {
    hide Walk, ReadByte;
    var i := |got|;
    if s.cpu.abrt == 0 && Walk(s.cpu, s.ram, env.a20, At(lin, i), false).Frame? {
      var w := Walk(s.cpu, s.ram, env.a20, At(lin, i), false);
      PrefixPages(env, s.cpu, s.ram, lin, n, false, pas[..i] + [w.phys]);
      assert (pas[..i] + [w.phys])[i] == pas[i];
      assert pas[..i] + [w.phys] == pas[..i + 1];
      var r := ReadByte(env, t, w.phys);
      OnlyPlace(env, t, w.phys);
      ReadFaults(env, s, r.0, lin, n, got + [r.1], pas, cpu);
    }
  }

  /** A byte read moves nothing but the place in z486's data. */
  lemma OnlyPlace(env: Env, s: Sim, phys: Word32)
    requires Good(env, s)
    ensures var r := ReadByte(env, s, phys).0;
            r == s.(devCur := r.devCur, devLast := r.devLast, stall := r.stall, failed := r.failed)
  {
  }

  /** A device byte that z486 has not returned stalls the step; one that it
      read elsewhere is reported. */
  lemma DeviceByte(env: Env, s: Sim, phys: Word32)
    requires Good(env, s) && IsDevice(phys)
    ensures var r := ReadByte(env, s, phys).0;
            && (s.devCur == |env.devRd| ==> r.stall)
            && (s.devCur < |env.devRd| && env.devRd[s.devCur].addr != phys && env.devRd[s.devCur].addr != s.devLast ==>
                  r.failed)
  {
  }

  // ---- What a write leaves ----

  predicate Distinct(pas: seq<Word32>) {
    forall i, j :: 0 <= i < j < |pas| ==> pas[i] != pas[j]
  }

  /** A byte not among those written stays, and one that is not RAM does. */
  lemma {:induction false} StoreEachKeeps(env: Env, s: Sim, pas: seq<Word32>, bytes: seq<Byte>, a: nat)
    requires Good(env, s) && |pas| == |bytes| && a < |s.ram|
    requires a !in pas || !InRam(env.c, a)
    ensures StoreEach(env, s, pas, bytes).ram[a] == s.ram[a]
    decreases pas
  {
    if pas != [] {
      StoreOneKeeps(env, s, pas[0], bytes[0], a);
      StoreEachKeeps(env, StoreLogged(env, s, pas[0], bytes[0]), pas[1..], bytes[1..], a);
    }
  }

  lemma StoreOneKeeps(env: Env, s: Sim, phys: Word32, val: Byte, a: nat)
    requires Good(env, s) && a < |s.ram| && (a != phys || !InRam(env.c, a))
    ensures StoreLogged(env, s, phys, val).ram[a] == s.ram[a]
  {
    if InRam(env.c, phys) {
      RunSoundness.IndexInRam(s.ram, phys);
    }
  }

  /** Each byte of RAM written has the value written. */
  lemma {:induction false} StoreEachStores(env: Env, s: Sim, pas: seq<Word32>, bytes: seq<Byte>, i: nat)
    requires Good(env, s) && |pas| == |bytes| && i < |pas| && Distinct(pas) && InRam(env.c, pas[i])
    ensures StoreEach(env, s, pas, bytes).ram[pas[i]] == bytes[i]
    decreases pas
  {
    var t := StoreLogged(env, s, pas[0], bytes[0]);
    if i == 0 {
      RunSoundness.IndexInRam(s.ram, pas[0]);
      assert pas[0] !in pas[1..];
      StoreEachKeeps(env, t, pas[1..], bytes[1..], pas[0]);
    } else {
      assert pas[1..][i - 1] == pas[i] && bytes[1..][i - 1] == bytes[i];
      StoreEachStores(env, t, pas[1..], bytes[1..], i - 1);
    }
  }

  lemma {:induction false} StoreEachStages(env: Env, s: Sim, pas: seq<Word32>, bytes: seq<Byte>)
    requires Good(env, s) && |pas| == |bytes|
    ensures var r := StoreEach(env, s, pas, bytes);
            && RunSoundness.Writes(r.stage) == RunSoundness.Writes(s.stage) + Pairs(pas, bytes)
            && r == s.(ram := r.ram, log := r.log, stage := r.stage)
    decreases pas
  {
    hide StoreLogged;
    if pas == [] {
      assert RunSoundness.Writes(s.stage) + [] == RunSoundness.Writes(s.stage);
    } else {
      var t := StoreLogged(env, s, pas[0], bytes[0]);
      StoreOneStages(env, s, pas[0], bytes[0]);
      StoreEachStages(env, t, pas[1..], bytes[1..]);
      PairsSplit(pas, bytes);
      Regroup(RunSoundness.Writes(s.stage), [Write(pas[0], bytes[0])], Pairs(pas[1..], bytes[1..]));
    }
  }

  lemma StoreOneStages(env: Env, s: Sim, phys: Word32, val: Byte)
    requires Good(env, s)
    ensures var r := StoreLogged(env, s, phys, val);
            && RunSoundness.Writes(r.stage) == RunSoundness.Writes(s.stage) + [Write(phys, val)]
            && r == s.(ram := r.ram, log := r.log, stage := r.stage)
  {
  }

  lemma Regroup<T>(a: seq<T>, b: seq<T>, c: seq<T>)
    ensures (a + b) + c == a + (b + c)
  {
  }

  lemma PairsSplit(pas: seq<Word32>, bytes: seq<Byte>)
    requires |pas| == |bytes| > 0
    ensures Pairs(pas, bytes) == [Write(pas[0], bytes[0])] + Pairs(pas[1..], bytes[1..])
  {
  }

  function Pairs(pas: seq<Word32>, bytes: seq<Byte>): seq<Write>
    requires |pas| == |bytes|
  {
    seq(|pas|, i requires 0 <= i < |pas| => Write(pas[i], bytes[i]))
  }

  /** A write whose bytes translate: each goes to its own address, low address
      first, as far as that is RAM; nothing else in RAM changes; and each is
      staged for comparison, whatever is there. */
  lemma StoreDoes(env: Env, p: Program, s: Sim, lin: Word32, bytes: seq<Byte>, pas: seq<Word32>)
    requires Good(env, s) && Translates(env, s, lin, |bytes|, true, pas)
    ensures |pas| == |bytes|
    ensures var r := Perform(env, p, s, Store(lin, bytes));
            && (Distinct(pas) ==> forall i :: 0 <= i < |pas| && InRam(env.c, pas[i]) ==> r.ram[pas[i]] == bytes[i])
            && (forall a :: 0 <= a < |s.ram| && (a !in pas || !InRam(env.c, a)) ==> r.ram[a] == s.ram[a])
            && RunSoundness.Writes(r.stage) == RunSoundness.Writes(s.stage) + Pairs(pas, bytes)
            && r == s.(ram := r.ram, log := r.log, stage := r.stage, cpu := p.resume(s.cpu, Ones))
  {
    hide TranslateAll, StoreEach;
    StoreEachStages(env, s, pas, bytes);
    forall a | 0 <= a < |s.ram| && (a !in pas || !InRam(env.c, a))
      ensures StoreEach(env, s, pas, bytes).ram[a] == s.ram[a]
    {
      StoreEachKeeps(env, s, pas, bytes, a);
    }
    if Distinct(pas) {
      forall i | 0 <= i < |pas| && InRam(env.c, pas[i])
        ensures StoreEach(env, s, pas, bytes).ram[pas[i]] == bytes[i]
      {
        StoreEachStores(env, s, pas, bytes, i);
      }
    }
  }

  // ---- What was written is read ----

  function PerformAll(env: Env, p: Program, s: Sim, acts: seq<Action>): (r: Sim)
    requires Good(env, s)
    ensures Good(env, r) && |r.ram| == |s.ram|
    decreases acts
  {
    if acts == [] then s else PerformAll(env, p, Perform(env, p, s, acts[0]), acts[1..])
  }

  /** Whatever the accesses do, none writes to any of these addresses. */
  ghost predicate Spares(env: Env, p: Program, s: Sim, acts: seq<Action>, pas: seq<Word32>)
    requires Good(env, s)
    decreases acts
  {
    acts != [] ==>
      && (acts[0].Store? ==>
            forall a :: a in TranslateAll(env, s.cpu, s.ram, acts[0].lin, |acts[0].bytes|, true, []).pas ==> a !in pas)
      && Spares(env, p, Perform(env, p, s, acts[0]), acts[1..], pas)
  }

  lemma {:induction false} PartialKeeps(env: Env, s: Sim, pas: seq<Word32>, bytes: seq<Byte>, a: nat)
    requires Good(env, s) && |pas| <= |bytes| && a < |s.ram| && a !in pas
    ensures StorePartial(env, s, pas, bytes).ram[a] == s.ram[a]
    decreases pas
  {
    if pas != [] && |s.partial| < MAX_PARTIAL {
      StoreOneKeeps(env, s, pas[0], bytes[0], a);
      var t := StoreLogged(env, s, pas[0], bytes[0]);
      PartialKeeps(env, t.(partial := t.partial + [Write(pas[0], bytes[0])]), pas[1..], bytes[1..], a);
    }
  }

  lemma ActionKeeps(env: Env, p: Program, s: Sim, act: Action, a: nat)
    requires Good(env, s) && a < |s.ram|
    requires act.Store? ==> a !in TranslateAll(env, s.cpu, s.ram, act.lin, |act.bytes|, true, []).pas
    ensures Perform(env, p, s, act).ram[a] == s.ram[a]
  {
    hide TranslateAll, StoreEach, StorePartial, ReadN, InN;
    match act
    case Store(lin, bytes) =>
      match TranslateAll(env, s.cpu, s.ram, lin, |bytes|, true, []) {
        case Pages(pas) => StoreEachKeeps(env, s, pas, bytes, a);
        case FaultAt(pas, cpu) => PartialKeeps(env, s.(cpu := cpu), pas, bytes, a);
      }
    case _ =>
  }

  /** Accesses elsewhere leave bytes as they are. */
  lemma {:induction false} ElsewhereKeeps(env: Env, p: Program, s: Sim, acts: seq<Action>, pas: seq<Word32>, a: nat)
    requires Good(env, s) && a < |s.ram| && a in pas && Spares(env, p, s, acts, pas)
    ensures PerformAll(env, p, s, acts).ram[a] == s.ram[a]
    decreases acts
  {
    hide Perform, TranslateAll;
    if acts != [] {
      ActionKeeps(env, p, s, acts[0], a);
      ElsewhereKeeps(env, p, Perform(env, p, s, acts[0]), acts[1..], pas, a);
    }
  }

  /** The two states translate alike: no paging in either, or tables that lay
      out one map, for the same privilege. */
  ghost predicate SameMap(s: Sim, t: Sim, m: map<nat, Leaf>) {
    && t.cpu.cr0 / 0x8000_0000 == s.cpu.cr0 / 0x8000_0000 && t.cpu.user == s.cpu.user
    && (s.cpu.cr0 / 0x8000_0000 == 1 ==> LaidOut(s.ram, s.cpu.cr3, m) && LaidOut(t.ram, t.cpu.cr3, m))
  }

  /** What may be written may be read. */
  lemma {:induction false} ReadableToo(env: Env, s: Sim, t: Sim, lin: Word32, n: nat, m: map<nat, Leaf>,
                                       done: seq<Word32>)
    requires s.ram != [] && t.ram != [] && SameMap(s, t, m) && s.cpu.abrt == 0 && t.cpu.abrt == 0 && |done| <= n
    requires TranslateAll(env, s.cpu, s.ram, lin, n, true, done).Pages?
    ensures TranslateAll(env, t.cpu, t.ram, lin, n, false, done) == TranslateAll(env, s.cpu, s.ram, lin, n, true, done)
    decreases n - |done|
  {
    hide Walk, LaidOut, PlatformPhys;
    if |done| < n {
      var a := At(lin, |done|);
      if s.cpu.cr0 / 0x8000_0000 == 1 {
        WalkFollowsMap(s.cpu, s.ram, env.a20, a, true, m);
        WalkFollowsMap(t.cpu, t.ram, env.a20, a, false, m);
      } else {
        WalkWithoutPaging(s.cpu, s.ram, env.a20, a, true);
        WalkWithoutPaging(t.cpu, t.ram, env.a20, a, false);
      }
      ReadableToo(env, s, t, lin, n, m, done + [Walk(s.cpu, s.ram, env.a20, a, true).phys]);
    }
  }

  /** Read after write. A write whose bytes translate to bytes of RAM, any
      accesses that do not write there, and a read of the same linear bytes
      under the same map: the program is resumed with exactly what was
      written, in one page or across several. */
  lemma ReadAfterWrite(env: Env, p: Program, s: Sim, lin: Word32, bytes: seq<Byte>, pas: seq<Word32>,
                       between: seq<Action>, m: map<nat, Leaf>)
    requires Good(env, s) && s.cpu.abrt == 0 && Translates(env, s, lin, |bytes|, true, pas)
    requires Distinct(pas) && forall a :: a in pas ==> InRam(env.c, a)
    requires var t := Perform(env, p, s, Store(lin, bytes));
             var u := PerformAll(env, p, t, between);
             Spares(env, p, t, between, pas) && u.cpu.abrt == 0 && SameMap(s, u, m)
    ensures var u := PerformAll(env, p, Perform(env, p, s, Store(lin, bytes)), between);
            var r := Perform(env, p, u, Read(lin, |bytes|));
            r == u.(devLast := r.devLast, cpu := p.resume(u.cpu, Bytes(bytes)))
  {
    hide Perform, PerformAll, Spares, TranslateAll, LaidOut, Devices;
    StoreDoes(env, p, s, lin, bytes, pas);
    var t := Perform(env, p, s, Store(lin, bytes));
    var u := PerformAll(env, p, t, between);
    ReadableToo(env, s, u, lin, |bytes|, m, []);
    NoDevices(env.c, pas, |pas|);
    AllInStep(env, u.devCur, pas);
    ReadGives(env, p, u, lin, |bytes|, pas);
    forall i | 0 <= i < |pas|
      ensures 0 <= pas[i] < |u.ram| && u.ram[pas[i]] == bytes[i]
    {
      assert pas[i] in pas;
      ElsewhereKeeps(env, p, t, between, pas, pas[i]);
    }
    var b: seq<Byte> :|
      && |b| == |bytes| && FoundAll(env, u, u.devCur, pas, b)
      && Perform(env, p, u, Read(lin, |bytes|))
         == u.(devCur := u.devCur + Devices(pas, |bytes|), devLast := Perform(env, p, u, Read(lin, |bytes|)).devLast,
               cpu := p.resume(u.cpu, Bytes(b)));
    FoundInRam(env, u, pas, b);
    assert b == bytes;
  }

  lemma {:induction false} NoDevices(c: Config, pas: seq<Word32>, i: nat)
    requires i <= |pas| && forall a :: a in pas ==> InRam(c, a)
    ensures Devices(pas, i) == 0
  {
    if i > 0 {
      assert pas[i - 1] in pas;
      NoDevices(c, pas, i - 1);
    }
  }

  lemma AllInStep(env: Env, c: nat, pas: seq<Word32>)
    requires forall a :: a in pas ==> InRam(env.c, a)
    ensures InStep(env.devRd, c, pas, 0)
  {
    forall i | 0 <= i < |pas|
      ensures !IsDevice(pas[i])
    {
      assert pas[i] in pas;
    }
  }

  lemma FoundInRam(env: Env, s: Sim, pas: seq<Word32>, b: seq<Byte>)
    requires Good(env, s) && FoundAll(env, s, s.devCur, pas, b) && |b| == |pas|
    requires forall a :: a in pas ==> InRam(env.c, a)
    ensures forall i :: 0 <= i < |pas| ==> 0 <= pas[i] < |s.ram| && b[i] == s.ram[pas[i]]
  {
    forall i | 0 <= i < |pas|
      ensures 0 <= pas[i] < |s.ram| && b[i] == s.ram[pas[i]]
    {
      assert pas[i] in pas;
    }
  }

  // ---- Ports ----

  /** z486's entry for the i-th byte of an input is of another port. */
  predicate OtherPort(ioRd: seq<Write>, c: nat, port: Word16, i: nat) {
    c + i < |ioRd| && ioRd[c + i].addr != (port + i) % 0x1_0000
  }

  lemma {:induction false} InFrom(env: Env, s: Sim, port: Word16, n: nat, got: seq<Byte>, c: nat)
    requires Good(env, s) && |got| <= n && s.ioCur == c + |got|
    requires forall i :: 0 <= i < |got| ==> got[i] == env.ioRd[c + i].val
    ensures var g := InN(env, s, port, n, got);
            if c + n <= |env.ioRd| then
              && g.resp.Bytes? && |g.resp.b| == n
              && (forall i :: 0 <= i < n ==> g.resp.b[i] == env.ioRd[c + i].val)
              && g.s == s.(ioCur := c + n, failed := g.s.failed)
              && (g.s.failed <==> (s.failed || exists i :: |got| <= i < n && OtherPort(env.ioRd, c, port, i)))
            else g.resp == Ones && g.s.stall
    decreases n - |got|
  {
    if |got| < n && s.ioCur < |env.ioRd| {
      var e := env.ioRd[s.ioCur];
      var t := s.(ioCur := s.ioCur + 1, failed := s.failed || e.addr != (port + |got|) % 0x1_0000);
      InFrom(env, t, port, n, got + [e.val], c);
      assert OtherPort(env.ioRd, c, port, |got|) <==> e.addr != (port + |got|) % 0x1_0000;
    }
  }

  /** An input takes z486's next bytes, one a port from the first on; another
      port than z486 read is reported, and a byte that it has not returned
      stalls the step. */
  lemma InGives(env: Env, p: Program, s: Sim, port: Word16, n: nat)
    requires Good(env, s)
    ensures var r := Perform(env, p, s, In(port, n));
            if s.ioCur + n <= |env.ioRd| then
              exists b: seq<Byte> ::
                && |b| == n && (forall i :: 0 <= i < n ==> b[i] == env.ioRd[s.ioCur + i].val)
                && r == s.(ioCur := s.ioCur + n, failed := r.failed, cpu := p.resume(s.cpu, Bytes(b)))
                && (r.failed <==> (s.failed || exists i :: 0 <= i < n && OtherPort(env.ioRd, s.ioCur, port, i)))
            else r.stall
  {
    hide InN;
    InFrom(env, s, port, n, [], s.ioCur);
    var g := InN(env, s, port, n, []);
    if s.ioCur + n <= |env.ioRd| {
      var b := g.resp.b;
      assert |b| == n;
    }
  }

  /** An output is its bytes at consecutive ports, in order: one byte is one at
      its port, and a longer one is a first part and then the rest, from the
      port after it on; ports wrap at 64K. */
  lemma OutSplits(port: Word16, a: seq<Byte>, b: seq<Byte>, x: Byte)
    ensures OutN(port, [x]) == [Write(port, x)]
    ensures OutN(port, a + b) == OutN(port, a) + OutN((port + |a|) % 0x1_0000, b)
  {
  }
}
