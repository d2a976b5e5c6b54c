/** The reference's page walk, and why a write that crosses a page boundary
    can only fail on a page it enters. */
module Paging {
  import opened Platform
  import opened WriteMatcher

  const PAGE: int := 0x1000
  const ABRT_PF: nat := 14

  /** The CPU state. Translation and rollback see these fields; `core` stands
      for all the others. */
  datatype Cpu = Cpu(core: int, cr0: Word32, cr2: Word32, cr3: Word32, user: bool, fetching: bool,
                     abrt: nat, abrtError: Word32)

  datatype Translation = Frame(phys: Word32) | PageFault(code: Word32)

  predicate Bit(x: Word32, weight: nat)
    requires weight > 0
  {
    x / weight % 2 == 1
  }

  function PageBase(x: Word32): (r: Word32)
    ensures r % PAGE == 0 && r <= x < r + PAGE
  {
    x - x % PAGE
  }

  function Word(b0: int, b1: int, b2: int, b3: int): Word32
    requires 0 <= b0 < 0x100 && 0 <= b1 < 0x100 && 0 <= b2 < 0x100 && 0 <= b3 < 0x100
  {
    b0 + 0x100 * b1 + 0x1_0000 * b2 + 0x100_0000 * b3
  }

  /** Entry `index` of the paging structure at base. */
  function Entry(ram: seq<Byte>, base: Word32, index: nat): Word32
    requires ram != [] && base % PAGE == 0 && index < 0x400
  {
    var a := base + 4 * index;
    Word(ram[Index(ram, a)], ram[Index(ram, a + 1)], ram[Index(ram, a + 2)], ram[Index(ram, a + 3)])
  }

  /** The address o bytes into a page. */
  function InPage(base: Word32, o: nat): (r: Word32)
    requires base % PAGE == 0 && o < PAGE
    ensures r == base + o
  {
    base + o
  }

  /** The two-level lookup of one page: its frame, or the error code. */
  function Lookup(cpu: Cpu, ram: seq<Byte>, dir: nat, table: nat, write: bool): (r: Translation)
    requires ram != [] && dir < 0x400 && table < 0x400
    ensures r.Frame? ==> r.phys % PAGE == 0
  {
    var access: Word32 := (if write then 2 else 0) + (if cpu.user then 4 else 0);
    var pde := Entry(ram, PageBase(cpu.cr3), dir);
    if !Bit(pde, 1) then PageFault(access)
    else
      var pte := Entry(ram, PageBase(pde), table);
      if !Bit(pte, 1) then PageFault(access)
      else if cpu.user && !(Bit(pde, 4) && Bit(pte, 4)) then PageFault(access + 1)
      else if write && (cpu.user || Bit(cpu.cr0, 0x1_0000)) && !(Bit(pde, 2) && Bit(pte, 2)) then
        PageFault(access + 1)
      else Frame(PageBase(pte))
  }

  function Walk(cpu: Cpu, ram: seq<Byte>, a20: bool, lin: Word32, write: bool): Translation
    requires ram != []
  {
    if !Bit(cpu.cr0, 0x8000_0000) then Frame(PlatformPhys(a20, lin))
    else
      var t := Lookup(cpu, ram, lin / 0x40_0000, lin / PAGE % 0x400, write);
      if t.Frame? then Frame(PlatformPhys(a20, InPage(t.phys, lin % PAGE))) else t
  }

  /** The state after a translation that faulted. */
  function Faulted(cpu: Cpu, lin: Word32, code: Word32): Cpu {
    cpu.(cr2 := if cpu.fetching then lin - lin % 16 else lin, abrt := ABRT_PF, abrtError := code)
  }

  /** The map moves whole pages. */
  lemma PlatformPhysByPage(a20: bool, p: Word32, o: nat)
    requires p % PAGE == 0 && o < PAGE && p + o < 0x1_0000_0000
    ensures PlatformPhys(a20, p + o) == PlatformPhys(a20, p) + o
  {
    assert (p + o) / A20_BIT == p / A20_BIT;
    assert p - A20_BIT + o == p + o - A20_BIT;
  }

  lemma SamePage(lin: Word32)
    ensures var base := PageBase(lin);
            && base / PAGE == lin / PAGE && base / 0x40_0000 == lin / 0x40_0000
            && base % PAGE == 0 && base + lin % PAGE == lin
  {
  }

  /** Whether a byte is present and where is a matter of its page alone. */
  lemma WalkByPage(cpu: Cpu, ram: seq<Byte>, a20: bool, lin: Word32, write: bool)
    requires ram != []
    ensures var t, page := Walk(cpu, ram, a20, lin, write), Walk(cpu, ram, a20, PageBase(lin), write);
            if page.Frame? then t.Frame? && t.phys == page.phys + lin % PAGE else t == page
  {
    hide Lookup, PlatformPhys, Bit;
    SamePage(lin);
    var base, o := PageBase(lin), lin % PAGE;
    if !Bit(cpu.cr0, 0x8000_0000) {
      PlatformPhysByPage(a20, base, o);
    } else {
      var t := Lookup(cpu, ram, lin / 0x40_0000, lin / PAGE % 0x400, write);
      if t.Frame? {
        PlatformPhysByPage(a20, t.phys, o);
      }
    }
  }
}
