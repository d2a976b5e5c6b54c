/** The machine words and the physical memory map that both CPUs of the
    co-simulation share. */
module Platform {
  type Byte = x: int | 0 <= x < 0x100
  type Word16 = x: int | 0 <= x < 0x1_0000
  type Word32 = x: int | 0 <= x < 0x1_0000_0000

  const DEV_LO: int := 0xA_0000        // device bytes: A0000-BFFFF
  const DEV_HI: int := 0xC_0000
  const ROM_HI: int := 0x10_0000       // write-protected bytes: C0000-FFFFF
  const A20_BIT: int := 0x10_0000
  const BIOS_ALIAS: int := 0xFFFC_0000
  const BIOS_MIRROR: int := 0xFC_0000

  /** How one reference is set up: its RAM size and whether an x87 store
      that differs is adopted instead of reported. */
  datatype Config = Config(ramBytes: nat, lenient: bool)

  /** The bus address of a physical address: A20 masking, then the reset
      vector's window onto the RAM copy of the BIOS. */
  function PlatformPhys(a20: bool, phys: Word32): Word32 {
    var p := if !a20 && (phys / A20_BIT) % 2 == 1 then phys - A20_BIT else phys;
    if p >= BIOS_ALIAS then BIOS_MIRROR + p % 0x4_0000 else p
  }

  /** A byte a CPU write changes: not a device, not write-protected, present. */
  predicate InRam(c: Config, phys: int) {
    0 <= phys < c.ramBytes && !(DEV_LO <= phys < DEV_HI) && phys / 0x4_0000 != 3
  }
}
