/** The IDE and ATAPI host of the simulator, one bus step at a time: the state
    machine behind `tick` without its bus pacing. */
module Ide {
  import opened Platform

  // ---- Status register bits ----

  const RDY: Byte := 0x40
  const DSC: Byte := 0x10
  const DRQ: Byte := 0x08
  const IRQ: Byte := 0x04
  const END: Byte := 0x02
  const ERR: Byte := 0x01

  function Or(a: Byte, b: Byte): Byte {
    ((a as bv8) | (b as bv8)) as int
  }

  predicate Has(status: Byte, bit: Byte) {
    (status as bv8) & (bit as bv8) != 0
  }

  // ---- Entities ----

  datatype Phase =
    | Initial | Idle | GetResetDrive | ResetSet | GetCmd | DoCmd | SendId | SetRegs | SetRegsSend
    | Read | ReadRegs | ReadSend | ReadWaitReq
    | Write | WriteRegs | WriteWaitReq | WriteRecv
    | PacketWaitReq | PacketRecv | PacketSend | PacketReadWaitReq | PacketHandle

  datatype Regs = Regs(ioSize: Byte, error: Byte, sectorCount: Word16, sector: Word16, cylinder: Word32,
                       head: Byte, drv: Byte, lba: Byte, cmd: Byte, pktIoSize: Word16, status: Byte)

  const FRESH: Regs := Regs(0, 0, 1, 1, 0, 0, 0, 0, 0, 0, RDY)

  datatype Drive = Drive(present: bool, cylinders: Word16, heads: Word16, spt: Word16, totalSectors: Word32,
                         spb: Word32, id: seq<Word16>)

  /** The words of IDENTIFY and the replies of the informational packet
      commands: fixed tables of the drive. */
  datatype Reply = Data(bytes: seq<Byte>) | Reject(asc: Byte)
  datatype Rom = Rom(identify: Drive -> seq<Word16>, respond: (seq<Byte>, Drive) -> Reply)

  datatype Cursor = NoSector | Sector(offset: nat)

  /** The command words as they are read. */
  datatype Task = Task(features: Byte, sectorCount: Word32, sector: Word32, cylinder: Word32, drvAddr: Byte, cmd: Byte)

  /** The packet command under way: its bytes, the data phase, the blocks
      still to read, the host's limit, and the sense data. */
  datatype Atapi = Atapi(packet: seq<Byte>, data: seq<Byte>, lba: Word32, remaining: Word32, limit: Word16,
                         key: Byte, asc: Byte, ascq: Byte)

  datatype Dev = Dev(
    rom: Rom, id: Byte, base: Word16, phase: Phase, next: Phase, regs: Regs, drive: Drive,
    image: seq<Byte>, words: Cursor, task: Task, buf: seq<Byte>, cnt: nat, irqPending: Byte, cdrom: bool,
    atapi: Atapi, addr: Word16)

  /** A bus operation, and what the host shows a step: its request line and
      the word read last. */
  datatype Op = Quiet | Rd(addr: Word16) | Wr(addr: Word16, data: Word16)
  datatype Inp = Inp(request: Byte, data: Word16)
  datatype Step = Step(d: Dev, op: Op)

  /** The phases a register block can be followed by. */
  predicate Resting(p: Phase) {
    p.Idle? || p.ResetSet? || p.ReadWaitReq? || p.WriteWaitReq? || p.PacketWaitReq? || p.PacketReadWaitReq?
  }

  /** What every step keeps: a geometry that divides, tables of their size,
      and indices inside them. */
  ghost predicate Valid(d: Dev) {
    && 1 <= d.drive.heads <= 256 && 1 <= d.drive.spt
    && |d.drive.id| == 256 && |d.buf| == 12 && |d.atapi.packet| == 12
    && (forall v :: |d.rom.identify(v)| == 256)
    && (d.words.Sector? ==> d.words.offset + 512 <= |d.image|)
    && Resting(d.next)
    && (d.phase.WriteRecv? ==> d.cnt <= 256)
    && (d.phase.PacketRecv? ==> d.cnt <= 6)
    && (d.phase.PacketSend? ==> 2 * d.regs.pktIoSize <= |d.atapi.data|)
  }

  function Word(lo: Byte, hi: Byte): Word16 {
    lo + 0x100 * hi
  }

  // ---- Bus operations ----

  function Port(d: Dev, k: nat): Word16 {
    (d.base + k) % 0x1_0000
  }

  function DoRead(d: Dev, addr: Word16): Step {
    Step(d.(addr := addr), Rd(addr))
  }

  function DoWrite(d: Dev, addr: Word16, data: Word16): Step {
    Step(d.(addr := addr), Wr(addr, data))
  }

  function Silent(d: Dev): Step {
    Step(d, Quiet)
  }

  // ---- Addresses ----

  function GetLba(r: Regs, v: Drive): Word32 {
    if r.lba != 0 then r.sector % 0x100 + (r.cylinder % 0x1_0000) * 0x100 + (r.head % 0x10) * 0x100_0000
    else ((r.cylinder * v.heads + r.head) * v.spt + r.sector - 1) % 0x1_0000_0000
  }

  function PutLba(r: Regs, v: Drive, lba: Word32): Regs
    requires 1 <= v.heads && 1 <= v.spt
  {
    if r.lba != 0 then
      r.(sector := lba % 0x100, cylinder := lba / 0x100 % 0x1_0000, head := lba / 0x100_0000 % 0x10)
    else
      var perCyl := v.heads * v.spt;
      var rest := lba % perCyl;
      r.(cylinder := lba / perCyl, head := rest / v.spt % 0x100, sector := (rest % v.spt + 1) % 0x1_0000)
  }

  function Advance(r: Regs, v: Drive): Regs
    requires 1 <= v.heads && 1 <= v.spt
  {
    PutLba(r, v, (GetLba(r, v) + 1) % 0x1_0000_0000)
  }

  function Locate(d: Dev): Cursor {
    var lba := GetLba(d.regs, d.drive);
    if (lba + 1) * 512 > |d.image| then NoSector else Sector(lba * 512)
  }

  // ---- Register block ----

  /** The twelve bytes SET_REGS stages. */
  function Block(r: Regs, cdrom: bool): (b: seq<Byte>)
    ensures |b| == 12
  {
    [if cdrom then 0x80 else r.ioSize, r.error, r.sectorCount % 0x100, r.sector % 0x100,
     r.cylinder % 0x100, r.cylinder / 0x100 % 0x100, r.cylinder / 0x1_0000 % 0x100, r.cylinder / 0x100_0000 % 0x100,
     r.pktIoSize % 0x100, r.pktIoSize / 0x100 % 0x100,
     Or(Or(if r.lba != 0 then 0xE0 else 0xA0, if r.drv != 0 then 0x10 else 0), r.head), r.status]
  }

  function Settled(r: Regs, cdrom: bool): Regs {
    if !cdrom && !Has(r.status, DRQ) then r.(status := Or(r.status, DSC)) else r
  }

  function StageRegs(d: Dev): Dev {
    var r := Settled(d.regs, d.cdrom);
    d.(regs := r, buf := Block(r, d.cdrom), cnt := 0, phase := SetRegsSend)
  }

  function SendRegs(d: Dev): (s: Step)
    requires Valid(d) && d.phase.SetRegsSend?
    ensures Valid(s.d)
  {
    if d.cnt < 6 then
      DoWrite(d.(cnt := d.cnt + 1), Port(d, d.cnt), Word(d.buf[2 * d.cnt], d.buf[2 * d.cnt + 1]))
    else
      Silent(d.(cnt := 0, phase := d.next))
  }

  /** The register block to send next, and the phase after it. */
  function Answer(d: Dev, r: Regs, next: Phase): Dev {
    d.(regs := r, phase := SetRegs, next := next)
  }

  // ---- Disk commands ----

  function Resized(v: Drive, sectors: nat, heads: nat): (r: Drive)
    requires heads <= 256 && sectors < 0x1_0000
    ensures 1 <= r.heads <= 256 && 1 <= r.spt && r.id == v.id
  {
    var h := if heads != 0 then heads else 16;
    var s := if sectors != 0 then sectors else 63;
    v.(heads := h, spt := s, cylinders := Cylinders(v.totalSectors, h, s))
  }

  function Cylinders(total: Word32, heads: nat, spt: nat): Word16
    requires 1 <= heads && 1 <= spt
  {
    var n := heads * spt;
    assert n > 0;
    var cylinders := total / n;
    if cylinders > 65535 then 65535 else cylinders
  }

  function SetGeometry(d: Dev, sectors: Byte, heads: nat): (r: Dev)
    requires Valid(d) && heads <= 256
    ensures Valid(r) && r == d.(drive := r.drive)
  {
    var v := Resized(d.drive, sectors, heads);
    d.(drive := v.(id := d.rom.identify(v)))
  }

  /** The 28-bit taskfile: the upper bytes of each register are dropped, and
      a count of 0 asks for 256 sectors. */
  function Masked(r: Regs, cmd: Byte): Regs {
    var count := r.sectorCount % 0x100;
    var counted := cmd == 0x20 || cmd == 0x21 || cmd == 0x30 || cmd == 0x31 || cmd == 0xC4 || cmd == 0xC5;
    r.(sectorCount := if counted && count == 0 then 256 else count, sector := r.sector % 0x100,
       cylinder := r.cylinder % 0x1_0000)
  }

  function DiskCommand(d: Dev): (r: Dev)
    requires Valid(d) && d.phase.DoCmd?
    ensures Valid(r)
  {
    var m := d.(regs := Masked(d.regs, d.task.cmd));
    var done := Or(RDY, IRQ);
    if d.task.cmd == 0xEC then
      m.(regs := FRESH.(drv := m.regs.drv, ioSize := 1, status := Or(Or(RDY, DRQ), Or(IRQ, END))),
         phase := SendId, cnt := 0)
    else if d.task.cmd == 0x20 || d.task.cmd == 0x21 then m.(phase := Read)
    else if d.task.cmd == 0x30 || d.task.cmd == 0x31 then m.(phase := Write)
    else if d.task.cmd == 0x91 then
      Answer(SetGeometry(m, m.regs.sectorCount, m.regs.head + 1), m.regs.(status := done), Idle)
    else if 0x10 <= d.task.cmd <= 0x1F then Answer(m, m.regs.(status := done, cylinder := 0), Idle)
    else if d.task.cmd == 0x40 then Answer(m, m.regs.(status := done), Idle)
    else Answer(m, m.regs.(error := 0x04, status := Or(done, ERR)), Idle)
  }

  function ReadSector(d: Dev): (r: Dev)
    requires Valid(d) && d.phase.ReadRegs?
    ensures Valid(r)
  {
    var words := Locate(d);
    var count := (d.regs.sectorCount - 1) % 0x1_0000;
    var status := Or(Or(RDY, DRQ), IRQ);
    d.(words := words, buf := if words.NoSector? then seq(12, _ => 0) else d.buf,
       regs := Advance(d.regs, d.drive).(sectorCount := count, ioSize := 1,
                                         status := if count == 0 then Or(status, END) else status),
       cnt := 0, phase := ReadSend)
  }

  function WordAt(image: seq<Byte>, words: Cursor, k: nat): Word16
    requires words.Sector? ==> words.offset + 2 * k + 1 < |image|
  {
    if words.NoSector? then 0 else Word(image[words.offset + 2 * k], image[words.offset + 2 * k + 1])
  }

  function SendSector(d: Dev): (s: Step)
    requires Valid(d) && d.phase.ReadSend?
    ensures Valid(s.d)
  {
    if d.cnt < 256 then DoWrite(d.(cnt := d.cnt + 1), Port(d, 255), WordAt(d.image, d.words, d.cnt))
    else Silent(Answer(d.(cnt := 0), d.regs, if d.regs.sectorCount != 0 then ReadWaitReq else Idle))
  }

  function OpenSector(d: Dev): (r: Dev)
    requires Valid(d) && d.phase.WriteRegs?
    ensures Valid(r)
  {
    Answer(d.(words := Locate(d), irqPending := IRQ),
           d.regs.(status := Or(Or(RDY, DRQ), d.irqPending), ioSize := 1), WriteWaitReq)
  }

  function PutWord(image: seq<Byte>, words: Cursor, k: nat, w: Word16): (r: seq<Byte>)
    requires words.Sector? ==> words.offset + 2 * k + 1 < |image|
    ensures |r| == |image|
  {
    if words.NoSector? then image
    else image[words.offset + 2 * k := w % 0x100][words.offset + 2 * k + 1 := w / 0x100]
  }

  function ReceiveSector(d: Dev, data: Word16): (s: Step)
    requires Valid(d) && d.phase.WriteRecv?
    ensures Valid(s.d)
  {
    var e := if d.cnt > 0 then d.(image := PutWord(d.image, d.words, d.cnt - 1, data)) else d;
    if d.cnt < 256 then DoRead(e.(cnt := d.cnt + 1), Port(d, 255))
    else
      var r := Advance(d.regs, d.drive).(sectorCount := (d.regs.sectorCount - 1) % 0x1_0000);
      if r.sectorCount != 0 then Silent(e.(regs := r, cnt := 0, phase := WriteRegs))
      else Silent(Answer(e.(cnt := 0), r.(status := Or(RDY, IRQ)), Idle))
  }

  // ---- Packet commands ----

  function FinishedRegs(r: Regs, key: Byte, extra: Byte): Regs {
    var ok := Or(Or(RDY, IRQ), extra);
    r.(sectorCount := 3, pktIoSize := 0, error := key * 16 % 0x100, status := if key != 0 then Or(ok, ERR) else ok)
  }

  function PacketRegs(r: Regs, size: nat): Regs {
    r.(pktIoSize := size / 2 % 0x1_0000, cylinder := size % 0x1_0000_0000, sectorCount := 2, error := 0,
       status := Or(Or(RDY, DRQ), IRQ))
  }

  function FinishPacket(d: Dev, key: Byte, asc: Byte, ascq: Byte, extra: Byte): (r: Dev)
    requires Valid(d)
    ensures Valid(r)
  {
    Answer(d.(atapi := d.atapi.(key := key, asc := asc, ascq := ascq)), FinishedRegs(d.regs, key, extra), Idle)
  }

  /** At most the host's limit, in whole words. */
  function Trimmed(data: seq<Byte>, limit: nat): (r: seq<Byte>)
    ensures |r| % 2 == 0
  {
    var cut := if limit != 0 && |data| > limit then data[..limit] else data;
    if |cut| % 2 == 1 then cut + [0] else cut
  }

  function SendPacket(d: Dev, data: seq<Byte>): (r: Dev)
    requires Valid(d)
    ensures Valid(r) && r.phase.PacketSend?
  {
    var sent := Trimmed(data, d.atapi.limit);
    d.(atapi := d.atapi.(data := sent), regs := PacketRegs(d.regs, |sent|), cnt := 0, phase := PacketSend)
  }

  const BLOCK: nat := 2048

  /** The blocks of the next data phase. */
  function Chunk(remaining: Word32, limit: Word16): (n: nat)
    ensures 1 <= n <= 8
    ensures remaining > 0 ==> n <= remaining
  {
    var n := if remaining < 8 then remaining else 8;
    var m := if limit >= BLOCK && limit / BLOCK < n then limit / BLOCK else n;
    if m == 0 then 1 else m
  }

  function ReadBlocks(d: Dev): (r: Dev)
    requires Valid(d)
    ensures Valid(r)
  {
    if d.atapi.remaining == 0 then FinishPacket(d, 0, 0, 0, 0)
    else
      var n := Chunk(d.atapi.remaining, d.atapi.limit);
      var offset := d.atapi.lba * BLOCK;
      if offset + n * BLOCK > |d.image| then FinishPacket(d, 5, 0x21, 0, 0)
      else
        SendPacket(d.(atapi := d.atapi.(lba := (d.atapi.lba + n) % 0x1_0000_0000, remaining := d.atapi.remaining - n)),
                   d.image[offset..offset + n * BLOCK])
  }

  function Be16(p: seq<Byte>, i: nat): Word16
    requires i + 2 <= |p|
  {
    Word(p[i + 1], p[i])
  }

  function Be32(p: seq<Byte>, i: nat): Word32
    requires i + 4 <= |p|
  {
    Be16(p, i) * 0x1_0000 + Be16(p, i + 2)
  }

  function PushBe32(v: Word32): seq<Byte> {
    [v / 0x100_0000, v / 0x1_0000 % 0x100, v / 0x100 % 0x100, v % 0x100]
  }

  function SenseData(d: Dev): seq<Byte>
    requires Valid(d)
  {
    var data := [0x70, 0, d.atapi.key % 0x10, 0, 0, 0, 0, 10, 0, 0, 0, 0, d.atapi.asc, d.atapi.ascq, 0, 0, 0, 0];
    if d.atapi.packet[4] < 18 then data[..d.atapi.packet[4]] else data
  }

  /** Commands that only complete. */
  predicate NoData(opcode: Byte) {
    opcode in {0x00, 0x1B, 0x1E, 0x35, 0x45, 0x47, 0x4B, 0x4E}
  }

  /** Commands answered from the drive's tables: INQUIRY, READ TOC, READ
      SUB-CHANNEL, MODE SENSE(10) and GET CONFIGURATION. */
  predicate Informational(opcode: Byte) {
    opcode in {0x12, 0x43, 0x42, 0x5A, 0x46}
  }

  function ClearSense(d: Dev): Dev {
    d.(atapi := d.atapi.(key := 0, asc := 0, ascq := 0))
  }

  /** A READ of so many blocks taken up. */
  function Asked(d: Dev, lba: Word32, blocks: Word32): Dev {
    d.(atapi := d.atapi.(lba := lba, remaining := blocks))
  }

  function HandlePacket(d: Dev): (r: Dev)
    requires Valid(d)
    ensures Valid(r)
  {
    var opcode := d.atapi.packet[0];
    if NoData(opcode) then FinishPacket(d, 0, 0, 0, 0)
    else if opcode == 0x2B then FinishPacket(d, 0, 0, 0, DSC)
    else if opcode == 0x03 then ClearSense(SendPacket(d, SenseData(d)))
    else if opcode == 0x25 then
      var last := if d.drive.totalSectors != 0 then d.drive.totalSectors - 1 else 0;
      SendPacket(d, PushBe32(last) + PushBe32(BLOCK))
    else if opcode == 0x28 then
      ReadBlocks(Asked(d, Be32(d.atapi.packet, 2), Be16(d.atapi.packet, 7)))
    else if opcode == 0xA8 then
      ReadBlocks(Asked(d, Be32(d.atapi.packet, 2), Be32(d.atapi.packet, 6)))
    else if Informational(opcode) then
      match d.rom.respond(d.atapi.packet, d.drive)
      case Data(bytes) => SendPacket(d, bytes)
      case Reject(asc) => FinishPacket(d, 5, asc, 0, 0)
    else FinishPacket(d, 5, 0x20, 0, 0)
  }

  function CdromCommand(d: Dev): (r: Dev)
    requires Valid(d) && d.phase.DoCmd?
    ensures Valid(r)
  {
    if d.task.cmd == 0xA1 then
      d.(regs := FRESH.(drv := d.regs.drv, pktIoSize := 256, status := Or(Or(RDY, DRQ), Or(IRQ, END))),
         cnt := 0, phase := SendId)
    else if d.task.cmd == 0xA0 then
      if d.task.features % 2 == 1 then FinishPacket(d, 5, 0x20, 0, 0)
      else
        var limit := d.regs.cylinder % 0x1_0000;
        Answer(d.(atapi := d.atapi.(limit := if limit != 0 then limit else 32 * 512)),
               d.regs.(pktIoSize := 6, sectorCount := 1, error := 0, status := Or(RDY, DRQ)), PacketWaitReq)
    else if d.task.cmd == 0x08 then
      Answer(d, d.regs.(error := 1, sectorCount := 1, sector := 1, cylinder := 0xEB14, head := 0, pktIoSize := 0,
                        status := 0), Idle)
    else if d.task.cmd == 0xEF then Answer(d, d.regs.(error := 0, status := Or(RDY, IRQ)), Idle)
    else
      Answer(d, d.regs.(error := 0x04, sectorCount := 1, sector := 1, cylinder := 0xEB14,
                        status := Or(Or(RDY, ERR), IRQ)), Idle)
  }

  function ReceivePacket(d: Dev, data: Word16): (s: Step)
    requires Valid(d) && d.phase.PacketRecv?
    ensures Valid(s.d)
  {
    var k := 2 * d.cnt - 2;
    var e := if d.cnt > 0 then d.(atapi := d.atapi.(packet := d.atapi.packet[k := data % 0x100][k
          + 1 := data / 0x100])) else d;
    if d.cnt < 6 then DoRead(e.(cnt := d.cnt + 1), Port(d, 255))
    else DoWrite(e.(cnt := 0, phase := PacketHandle), Port(d, 7), 0)
  }

  function SendPacketData(d: Dev): (s: Step)
    requires Valid(d) && d.phase.PacketSend?
    ensures Valid(s.d)
  {
    if d.cnt < d.regs.pktIoSize then
      DoWrite(d.(cnt := d.cnt + 1), Port(d, 255), Word(d.atapi.data[2 * d.cnt], d.atapi.data[2 * d.cnt + 1]))
    else Silent(Answer(d.(cnt := 0), d.regs, PacketReadWaitReq))
  }

  // ---- The command block and the step ----

  /** One of the command's first five words. */
  function LoadTask(t: Task, k: nat, data: Word16): Task {
    var lo, hi := data % 0x100, data / 0x100;
    match k
    case 0 => t.(features := hi)
    case 1 => t.(sectorCount := lo, sector := hi)
    case 2 => t.(cylinder := data)
    case 3 =>
      t.(sector := (t.sector + hi * 0x100) % 0x1_0000_0000, sectorCount := (t.sectorCount + lo * 0x100) % 0x1_0000_0000)
    case _ => t.(cylinder := (t.cylinder + data * 0x1_0000) % 0x1_0000_0000)
  }

  function TakeTask(r: Regs, t: Task): Regs {
    r.(sectorCount := t.sectorCount % 0x1_0000, sector := t.sector % 0x1_0000, cylinder := t.cylinder,
       head := t.drvAddr % 0x10, drv := t.drvAddr / 0x10 % 2, lba := t.drvAddr / 0x40 % 2)
  }

  function LoadCommand(d: Dev, data: Word16): (s: Step)
    requires Valid(d) && d.phase.GetCmd?
    ensures Valid(s.d)
  {
    var k := d.addr % 0x10;
    if k < 5 then DoRead(d.(task := LoadTask(d.task, k, data)), (d.addr + 1) % 0x1_0000)
    else if k == 5 then
      var task := d.task.(drvAddr := data % 0x100, cmd := data / 0x100);
      Silent(d.(task := task, regs := TakeTask(d.regs, task), phase := DoCmd))
    else Silent(d.(phase := Idle))
  }

  function HandleCommand(d: Dev): (r: Dev)
    requires Valid(d) && d.phase.DoCmd?
    ensures Valid(r)
  {
    if !d.drive.present || d.regs.drv != 0 then
      Answer(d, d.regs.(error := 0x04, status := Or(Or(RDY, ERR), IRQ)), Idle)
    else if d.cdrom then CdromCommand(d)
    else DiskCommand(d)
  }

  function ResetDrive(d: Dev, data: Word16): (r: Dev)
    requires Valid(d)
    ensures Valid(r)
  {
    var lo := data % 0x100;
    var drv := lo / 0x10 % 2;
    var here := d.drive.present && drv == 0;
    Answer(d.(task := d.task.(drvAddr := lo)),
           d.regs.(drv := drv, lba := lo / 0x40 % 2, head := 0, error := if d.cdrom then 1 else 0, sector := 1,
                   sectorCount := 1, cylinder := if !here then 0xFFFF else if d.cdrom then 0xEB14 else 0,
                   status := if d.cdrom then 0 else RDY), ResetSet)
  }

  /** What a phase that waits for the host does: goes on when asked for data,
      gives up on any other request. */
  function Await(d: Dev, request: Byte, go: Dev): Dev {
    if request == 5 then go else if request != 0 then d.(phase := Idle) else d
  }

  predicate Reading(p: Phase) {
    p.Read? || p.ReadRegs? || p.ReadSend? || p.ReadWaitReq?
  }

  predicate Writing(p: Phase) {
    p.Write? || p.WriteRegs? || p.WriteWaitReq? || p.WriteRecv?
  }

  predicate InPacket(p: Phase) {
    p.PacketWaitReq? || p.PacketRecv? || p.PacketHandle? || p.PacketSend? || p.PacketReadWaitReq?
  }

  function ReadStep(d: Dev, i: Inp): (s: Step)
    requires Valid(d) && Reading(d.phase)
    ensures Valid(s.d)
  {
    match d.phase
    case Read => Silent(d.(phase := ReadRegs))
    case ReadRegs => Silent(ReadSector(d))
    case ReadSend => SendSector(d)
    case ReadWaitReq => Silent(Await(d, i.request, d.(phase := ReadRegs)))
  }

  function WriteStep(d: Dev, i: Inp): (s: Step)
    requires Valid(d) && Writing(d.phase)
    ensures Valid(s.d)
  {
    match d.phase
    case Write => Silent(d.(irqPending := 0, phase := WriteRegs))
    case WriteRegs => Silent(OpenSector(d))
    case WriteWaitReq => Silent(Await(d, i.request, d.(cnt := 0, phase := WriteRecv)))
    case WriteRecv => ReceiveSector(d, i.data)
  }

  function PacketStep(d: Dev, i: Inp): (s: Step)
    requires Valid(d) && InPacket(d.phase)
    ensures Valid(s.d)
  {
    match d.phase
    case PacketWaitReq =>
      Silent(Await(d, i.request, d.(cnt := 0, atapi := d.atapi.(packet := seq(12, _ => 0)), phase := PacketRecv)))
    case PacketRecv => ReceivePacket(d, i.data)
    case PacketHandle => Silent(HandlePacket(d))
    case PacketSend => SendPacketData(d)
    case PacketReadWaitReq => Silent(Await(d, i.request, ReadBlocks(d)))
  }

  function CommandStep(d: Dev, i: Inp): (s: Step)
    requires Valid(d) && !Reading(d.phase) && !Writing(d.phase) && !InPacket(d.phase)
    ensures Valid(s.d)
  {
    match d.phase
    case Initial => DoWrite(d.(phase := Idle), Port(d, 6), if d.drive.present then 9 else 8)
    case Idle =>
      if i.request == 4 then DoRead(d.(phase := GetCmd), Port(d, 0))
      else if i.request == 6 then DoRead(d.(phase := GetResetDrive), Port(d, 5))
      else Silent(d)
    case GetResetDrive => Silent(ResetDrive(d, i.data))
    case ResetSet => Silent(d.(phase := Idle))
    case GetCmd => LoadCommand(d, i.data)
    case DoCmd => Silent(HandleCommand(d))
    case SendId =>
      if d.cnt < 256 then DoWrite(d.(cnt := d.cnt + 1), Port(d, 255), d.drive.id[d.cnt])
      else Silent(Answer(d, d.regs, Idle))
    case SetRegs => Silent(StageRegs(d))
    case SetRegsSend => SendRegs(d)
  }

  /** The phase machine: what `tick` does when the bus is ready for it. */
  function Next(d: Dev, i: Inp): (s: Step)
    requires Valid(d)
    ensures Valid(s.d)
  {
    if Reading(d.phase) then ReadStep(d, i)
    else if Writing(d.phase) then WriteStep(d, i)
    else if InPacket(d.phase) then PacketStep(d, i)
    else CommandStep(d, i)
  }
}
