/** What the page walk finds, in terms of the map that the tables in RAM lay
    out, and the physical map behind it. */
module PageTables {
  import opened Platform
  import opened Paging
  import W = WriteMatcher

  // ---- The tables as a map ----

  /** Where a linear page goes, and what is allowed there. */
  datatype Leaf = Leaf(frame: nat, user: bool, writable: bool)

  /** The four bytes from a on are v, the low one first; RAM repeats. */
  ghost predicate Dword(ram: seq<Byte>, a: nat, v: Word32) {
    && ram != []
    && v % 0x100 == ram[a % |ram|] && v / 0x100 % 0x100 == ram[(a + 1) % |ram|]
    && v / 0x1_0000 % 0x100 == ram[(a + 2) % |ram|] && v / 0x100_0000 == ram[(a + 3) % |ram|]
  }

  /** Bits 31 to 22, and 21 to 12, of an address in page p. */
  function Upper(p: nat): nat { p / 1024 }
  function Lower(p: nat): nat { p % 1024 }

  /** Page p's entries: d in the directory at cr3's page, t in the table at
      d's page. */
  ghost predicate Entries(ram: seq<Byte>, cr3: Word32, p: nat, d: Word32, t: Word32) {
    && Dword(ram, cr3 / 4096 * 4096 + 4 * Upper(p), d)
    && Dword(ram, d / 4096 * 4096 + 4 * Lower(p), t)
  }

  /** Both entries have the bit. */
  predicate Both(d: Word32, t: Word32, weight: nat)
    requires weight > 0
  {
    d / weight % 2 == 1 && t / weight % 2 == 1
  }

  /** What a page's two entries say of it: present, and then its frame, and
      whether the user may use it and it may be written. */
  ghost predicate Says(m: map<nat, Leaf>, p: nat, d: Word32, t: Word32) {
    && (p in m <==> Both(d, t, 1))
    && (p in m ==> m[p] == Leaf(t / 4096, Both(d, t, 4), Both(d, t, 2)))
  }

  ghost predicate HasPage(ram: seq<Byte>, cr3: Word32, m: map<nat, Leaf>, p: nat) {
    exists d, t :: Entries(ram, cr3, p, d, t) && Says(m, p, d, t)
  }

  /** RAM has the tables of m at cr3. */
  ghost predicate LaidOut(ram: seq<Byte>, cr3: Word32, m: map<nat, Leaf>) {
    ram != [] && forall p: nat :: p < 0x10_0000 ==> HasPage(ram, cr3, m, p)
  }

  // ---- The walk ----

  /** Present, and permitted: a user's access needs a user page, and a write by
      a user, or by the supervisor with WP set, a writable one. */
  predicate Permitted(cpu: Cpu, m: map<nat, Leaf>, p: nat, write: bool) {
    && p in m
    && (cpu.user ==> m[p].user)
    && (write && (cpu.user || cpu.cr0 / 0x1_0000 % 2 == 1) ==> m[p].writable)
  }

  lemma WordIs(b0: Byte, b1: Byte, b2: Byte, b3: Byte, v: Word32)
    requires v % 0x100 == b0 && v / 0x100 % 0x100 == b1 && v / 0x1_0000 % 0x100 == b2 && v / 0x100_0000 == b3
    ensures Word(b0, b1, b2, b3) == v
  {
    var upper := v / 0x100;
    var half := upper / 0x100;
    assert v / 0x1_0000 == half && v / 0x100_0000 == half / 0x100;
    Digits(v, upper, b0);
    Digits(upper, half, b1);
    Digits(half, half / 0x100, b2);
  }

  lemma Digits(v: nat, rest: nat, low: Byte)
    requires rest == v / 0x100 && v % 0x100 == low
    ensures v == low + 0x100 * rest
  {
  }

  lemma EntryIs(ram: seq<Byte>, base: Word32, index: nat, v: Word32)
    requires ram != [] && base % PAGE == 0 && index < 0x400 && Dword(ram, base + 4 * index, v)
    ensures Entry(ram, base, index) == v
  {
    hide Word;
    var a := base + 4 * index;
    WordIs(ram[a % |ram|], ram[(a + 1) % |ram|], ram[(a + 2) % |ram|], ram[(a + 3) % |ram|], v);
  }

  lemma BaseIs(x: Word32)
    ensures PageBase(x) == x / 4096 * 4096
  {
  }

  lemma Indices(lin: Word32)
    ensures var p := lin / 4096;
            Upper(p) == lin / 0x40_0000 < 0x400 && Lower(p) == lin / PAGE % 0x400 && p < 0x10_0000
  {
  }

  /** The walk follows the map: the frame and the offset, as the bus has them,
      if the access is permitted; or else a fault that tells whether the page
      was there, whether it was a write, and whose it was. */
  lemma WalkFollowsMap(cpu: Cpu, ram: seq<Byte>, a20: bool, lin: Word32, write: bool, m: map<nat, Leaf>)
    requires cpu.cr0 / 0x8000_0000 == 1 && LaidOut(ram, cpu.cr3, m)
    ensures var p, o, r := lin / 4096, lin % 4096, Walk(cpu, ram, a20, lin, write);
            if Permitted(cpu, m, p, write) then
              && m[p].frame < 0x10_0000
              && r == Frame(PlatformPhys(a20, m[p].frame * 4096 + o))
            else
              && r.PageFault? && r.code < 8
              && (r.code % 2 == 1 <==> p in m) && (r.code / 2 % 2 == 1 <==> write)
              && (r.code / 4 == 1 <==> cpu.user)
  {
    hide Entry, PlatformPhys, Dword, Upper, Lower;
    var p := lin / 4096;
    Indices(lin);
    assert HasPage(ram, cpu.cr3, m, p);
    var d: Word32, t: Word32 :| Entries(ram, cpu.cr3, p, d, t) && Says(m, p, d, t);
    BaseIs(cpu.cr3);
    BaseIs(d);
    BaseIs(t);
    EntryIs(ram, PageBase(cpu.cr3), Upper(p), d);
    EntryIs(ram, PageBase(d), Lower(p), t);
  }

  /** With paging off every address is its own. */
  lemma WalkWithoutPaging(cpu: Cpu, ram: seq<Byte>, a20: bool, lin: Word32, write: bool)
    requires cpu.cr0 / 0x8000_0000 == 0 && ram != []
    ensures Walk(cpu, ram, a20, lin, write) == Frame(PlatformPhys(a20, lin))
  {
  }

  // ---- Every RAM lays out one map ----

  lemma DwordExists(ram: seq<Byte>, a: nat) returns (v: Word32)
    requires ram != []
    ensures Dword(ram, a, v)
  {
    v := Word(ram[a % |ram|], ram[(a + 1) % |ram|], ram[(a + 2) % |ram|], ram[(a + 3) % |ram|]);
    WordParts(ram[a % |ram|], ram[(a + 1) % |ram|], ram[(a + 2) % |ram|], ram[(a + 3) % |ram|]);
  }

  lemma WordParts(b0: Byte, b1: Byte, b2: Byte, b3: Byte)
    ensures var v := Word(b0, b1, b2, b3);
            && v % 0x100 == b0 && v / 0x100 % 0x100 == b1 && v / 0x1_0000 % 0x100 == b2 && v / 0x100_0000 == b3
  {
    var v := Word(b0, b1, b2, b3);
    assert v / 0x100 == b1 + 0x100 * (b2 + 0x100 * b3);
    assert v / 0x1_0000 == b2 + 0x100 * b3;
  }

  lemma DwordUnique(ram: seq<Byte>, a: nat, v: Word32, w: Word32)
    requires Dword(ram, a, v) && Dword(ram, a, w)
    ensures v == w
  {
    WordIs(v % 0x100, v / 0x100 % 0x100, v / 0x1_0000 % 0x100, v / 0x100_0000, v);
    WordIs(v % 0x100, v / 0x100 % 0x100, v / 0x1_0000 % 0x100, v / 0x100_0000, w);
  }

  ghost function LeafOf(d: Word32, t: Word32): Leaf {
    Leaf(t / 4096, Both(d, t, 4), Both(d, t, 2))
  }

  lemma EntriesExist(ram: seq<Byte>, cr3: Word32, p: nat) returns (d: Word32, t: Word32)
    requires ram != []
    ensures Entries(ram, cr3, p, d, t)
  {
    hide Dword;
    d := DwordExists(ram, cr3 / 4096 * 4096 + 4 * Upper(p));
    t := DwordExists(ram, d / 4096 * 4096 + 4 * Lower(p));
  }

  /** The pages below n. */
  lemma {:induction false} MapBelow(ram: seq<Byte>, cr3: Word32, n: nat) returns (m: map<nat, Leaf>)
    requires ram != []
    ensures forall p :: p in m ==> p < n
    ensures forall p: nat :: p < n ==> HasPage(ram, cr3, m, p)
  {
    hide Entries;
    if n == 0 {
      m := map[];
    } else {
      var below := MapBelow(ram, cr3, n - 1);
      var d, t := EntriesExist(ram, cr3, n - 1);
      m := if Both(d, t, 1) then below[n - 1 := LeafOf(d, t)] else below;
      assert Says(m, n - 1, d, t);
      forall p: nat | p < n
        ensures HasPage(ram, cr3, m, p)
      {
        if p < n - 1 {
          assert HasPage(ram, cr3, below, p);
          var d': Word32, t': Word32 :| Entries(ram, cr3, p, d', t') && Says(below, p, d', t');
          assert Says(m, p, d', t');
        }
      }
    }
  }

  /** Whatever is in RAM, it lays out exactly one map. */
  lemma EveryRamLaysOutOne(ram: seq<Byte>, cr3: Word32) returns (m: map<nat, Leaf>)
    requires ram != []
    ensures LaidOut(ram, cr3, m)
    ensures forall k :: LaidOut(ram, cr3, k) ==> forall p: nat :: p < 0x10_0000 ==>
              (p in k <==> p in m) && (p in k ==> k[p] == m[p])
  {
    hide HasPage;
    m := MapBelow(ram, cr3, 0x10_0000);
    forall k | LaidOut(ram, cr3, k)
      ensures forall p: nat :: p < 0x10_0000 ==> (p in k <==> p in m) && (p in k ==> k[p] == m[p])
    {
      forall p: nat | p < 0x10_0000
        ensures (p in k <==> p in m) && (p in k ==> k[p] == m[p])
      {
        OneMap(ram, cr3, k, m, p);
      }
    }
  }

  lemma OneMap(ram: seq<Byte>, cr3: Word32, k: map<nat, Leaf>, m: map<nat, Leaf>, p: nat)
    requires LaidOut(ram, cr3, k) && LaidOut(ram, cr3, m) && p < 0x10_0000
    ensures (p in k <==> p in m) && (p in k ==> k[p] == m[p])
  {
    hide Dword, Both;
    assert HasPage(ram, cr3, k, p) && HasPage(ram, cr3, m, p);
    var d: Word32, t: Word32 :| Entries(ram, cr3, p, d, t) && Says(k, p, d, t);
    var d': Word32, t': Word32 :| Entries(ram, cr3, p, d', t') && Says(m, p, d', t');
    DwordUnique(ram, cr3 / 4096 * 4096 + 4 * Upper(p), d, d');
    DwordUnique(ram, d / 4096 * 4096 + 4 * Lower(p), t, t');
  }

  // ---- The physical map ----

  /** With A20 off, two addresses that differ in bit 20 alone are one; the
      even megabyte is the one meant. */
  lemma A20Wraps(p: Word32)
    requires p / 0x10_0000 % 2 == 0
    ensures PlatformPhys(false, p + 0x10_0000) == PlatformPhys(false, p) == PlatformPhys(true, p)
  {
  }

  /** With A20 on, every address is its own but those of the last 256K, which
      are the 256K below 16M. */
  lemma TopIsBios(p: Word32)
    ensures p < 0xFFFC_0000 ==> PlatformPhys(true, p) == p
    ensures 0xFFFC_0000 <= p ==> PlatformPhys(true, p) == 0xFC_0000 + (p - 0xFFFC_0000)
  {
  }

  /** The bytes a CPU write can change: below the RAM's size, but for the
      device bytes A0000 to BFFFF and the protected ones C0000 to FFFFF. */
  lemma RamBytes(c: Config, p: int)
    ensures InRam(c, p) <==> 0 <= p < c.ramBytes && !(0xA_0000 <= p < 0x10_0000)
  {
  }
}
