/** The IDE host as the program runs it: one object whose fields each clock
    updates in place. */
module IdeController {
  import opened Platform
  import opened Ide
  import P = IdePacing

  class HpsIde {
    const rom: Rom
    const image: array<Byte>
    var id: Byte
    var base: Word16
    var phase: Phase
    var next: Phase
    var regs: Regs
    var drive: Drive
    var words: Cursor
    var task: Task
    var buf: seq<Byte>
    var cnt: nat
    var irqPending: Byte
    var cdrom: bool
    var atapi: Atapi
    var addr: Word16
    var cooldown: bool
    var delay: nat

    /** A disk of the given contents, out of reset. */
    constructor (rom: Rom, id: Byte, base: Word16, drive: Drive, contents: array<Byte>, cdrom: bool)
      requires 1 <= drive.heads <= 256 && 1 <= drive.spt && |drive.id| == 256
      requires forall v :: |rom.identify(v)| == 256
      ensures this.image == contents && Ready()
      ensures State() == Dev(rom, id, base, Initial, Idle, FRESH, drive, contents[..], NoSector,
                               Task(0, 0, 0, 0, 0, 0), seq(12, _ => 0), 0, 0, cdrom,
                               Atapi(seq(12, _ => 0), [], 0, 0, 0, 0, 0, 0), 0)
    {
      this.rom, this.image, this.id, this.base, this.drive, this.cdrom := rom, contents, id, base, drive, cdrom;
      phase, next, regs, words := Initial, Idle, FRESH, NoSector;
      task, buf, cnt, irqPending := Task(0, 0, 0, 0, 0, 0), seq(12, _ => 0), 0, 0;
      atapi, addr := Atapi(seq(12, _ => 0), [], 0, 0, 0, 0, 0, 0), 0;
      cooldown, delay := false, 0;
    }

    ghost function State(): Dev
      reads this, image
    {
      Dev(rom, id, base, phase, next, regs, drive, image[..], words, task, buf, cnt, irqPending, cdrom, atapi, addr)
    }

    ghost function Ticker(): P.Ticker
      reads this, image
    {
      P.Ticker(State(), cooldown, delay)
    }

    ghost predicate Ready()
      reads this, image
    {
      Valid(State())
    }

    // ---- Bus operations ----

    method PulseRead(a: Word16) returns (op: Op)
      modifies this`addr
      ensures addr == a && op == Rd(a)
    {
      addr := a;
      return Rd(a);
    }

    method PulseWrite(a: Word16, data: Word16) returns (op: Op)
      modifies this`addr
      ensures addr == a && op == Wr(a, data)
    {
      addr := a;
      return Wr(a, data);
    }

    method Answer(r: Regs, after: Phase)
      modifies this`regs, this`phase, this`next
      ensures regs == r && phase == SetRegs && next == after
    {
      regs, phase, next := r, SetRegs, after;
    }

    // ---- Reads and writes ----

    method ReadRegs()
      requires Ready() && phase.ReadRegs?
      modifies this`words, this`buf, this`regs, this`cnt, this`phase
      ensures Ready() && State() == ReadSector(old(State()))
    {
      hide GetLba, PutLba, Or;
      Locates();
      var lba := GetLba(regs, drive);
      if (lba + 1) * 512 > image.Length {
        buf := seq(12, _ => 0);
        words := NoSector;
      } else {
        words := Sector(lba * 512);
      }
      var r := PutLba(regs, drive, (lba + 1) % 0x1_0000_0000);
      r := r.(sectorCount := (regs.sectorCount - 1) % 0x1_0000, ioSize := 1, status := Or(Or(RDY, DRQ), IRQ));
      if r.sectorCount == 0 {
        r := r.(status := Or(r.status, END));
      }
      regs, cnt, phase := r, 0, Phase.ReadSend;
    }

    lemma Locates()
      requires Ready()
      ensures Locate(State()) == if (GetLba(regs, drive) + 1) * 512 > image.Length then NoSector
                                 else Sector(GetLba(regs, drive) * 512)
    {
      hide GetLba;
    }

    method ReadSend() returns (op: Op)
      requires Ready() && phase.ReadSend?
      modifies this`cnt, this`regs, this`phase, this`next, this`addr
      ensures Ready() && Step(State(), op) == SendSector(old(State()))
    {
      if cnt < 256 {
        var data: Word16 := 0;
        if words.Sector? {
          data := Word(image[words.offset + 2 * cnt], image[words.offset + 2 * cnt + 1]);
        }
        op := PulseWrite((base + 255) % 0x1_0000, data);
        cnt := cnt + 1;
      } else {
        cnt := 0;
        op := Quiet;
        Answer(regs, if regs.sectorCount != 0 then ReadWaitReq else Idle);
      }
    }

    method WriteRegs()
      requires Ready() && phase.WriteRegs?
      modifies this`words, this`regs, this`irqPending, this`phase, this`next
      ensures Ready() && State() == OpenSector(old(State()))
    {
      hide GetLba, Or;
      Locates();
      var lba := GetLba(regs, drive);
      words := if (lba + 1) * 512 <= image.Length then Sector(lba * 512) else NoSector;
      var r := regs.(status := Or(Or(RDY, DRQ), irqPending), ioSize := 1);
      irqPending := IRQ;
      Answer(r, WriteWaitReq);
    }

    method StoreWord(k: nat, w: Word16)
      requires Ready() && k < 256
      modifies image
      ensures Ready() && State() == old(State()).(image := PutWord(old(image[..]), words, k, w))
    {
      if words.Sector? {
        image[words.offset + 2 * k] := w % 0x100;
        image[words.offset + 2 * k + 1] := w / 0x100;
      }
    }

    method WriteRecv(data: Word16) returns (op: Op)
      requires Ready() && phase.WriteRecv?
      modifies image, this`cnt, this`regs, this`phase, this`next, this`addr
      ensures Ready() && Step(State(), op) == ReceiveSector(old(State()), data)
    {
      hide GetLba, PutLba, Or, PutWord, Advance;
      if cnt > 0 {
        StoreWord(cnt - 1, data);
      }
      if cnt < 256 {
        op := PulseRead((base + 255) % 0x1_0000);
        cnt := cnt + 1;
      } else {
        op := Quiet;
        CloseSector();
      }
    }

    /** The sector is full: on to the next one, or to the end. */
    method CloseSector()
      requires Ready() && phase.WriteRecv?
      modifies this`cnt, this`regs, this`phase, this`next
      ensures Ready()
      ensures var d := old(State());
              var r := Advance(old(regs), drive).(sectorCount := (old(regs).sectorCount - 1) % 0x1_0000);
              State() == if r.sectorCount != 0 then d.(regs := r, cnt := 0, phase := Phase.WriteRegs)
                         else Ide.Answer(d.(cnt := 0), r.(status := Or(RDY, IRQ)), Idle)
    {
      hide GetLba, PutLba, Or;
      var r := PutLba(regs, drive, (GetLba(regs, drive) + 1) % 0x1_0000_0000);
      r := r.(sectorCount := (regs.sectorCount - 1) % 0x1_0000);
      cnt := 0;
      if r.sectorCount != 0 {
        regs, phase := r, Phase.WriteRegs;
      } else {
        Answer(r.(status := Or(RDY, IRQ)), Idle);
      }
    }

    // ---- Register blocks and commands ----

    method StageBlock()
      requires Ready() && phase.SetRegs?
      modifies this`regs, this`buf, this`cnt, this`phase
      ensures Ready() && State() == StageRegs(old(State()))
    {
      hide Or, Has, Block;
      if !cdrom && !Has(regs.status, DRQ) {
        regs := regs.(status := Or(regs.status, DSC));
      }
      buf := Block(regs, cdrom);
      cnt := 0;
      phase := SetRegsSend;
    }

    method SendBlock() returns (op: Op)
      requires Ready() && phase.SetRegsSend?
      modifies this`cnt, this`phase, this`addr
      ensures Ready() && Step(State(), op) == SendRegs(old(State()))
    {
      if cnt < 6 {
        op := PulseWrite((base + cnt) % 0x1_0000, Word(buf[2 * cnt], buf[2 * cnt + 1]));
        cnt := cnt + 1;
      } else {
        cnt := 0;
        phase := next;
        op := Quiet;
      }
    }

    method LoadWord(data: Word16) returns (op: Op)
      requires Ready() && phase.GetCmd?
      modifies this`task, this`regs, this`phase, this`addr
      ensures Ready() && Step(State(), op) == LoadCommand(old(State()), data)
    {
      hide LoadTask, TakeTask;
      op := Quiet;
      var k := addr % 0x10;
      if k < 5 {
        task := LoadTask(task, k, data);
        op := PulseRead((addr + 1) % 0x1_0000);
      } else if k == 5 {
        task := task.(drvAddr := data % 0x100, cmd := data / 0x100);
        regs := TakeTask(regs, task);
        phase := DoCmd;
      } else {
        phase := Idle;
      }
    }

    method GetResetDrive(data: Word16)
      requires Ready() && phase.GetResetDrive?
      modifies this`task, this`regs, this`phase, this`next
      ensures Ready() && State() == ResetDrive(old(State()), data)
    {
      var lo := data % 0x100;
      var drv := lo / 0x10 % 2;
      task := task.(drvAddr := lo);
      var r := regs.(drv := drv, lba := lo / 0x40 % 2, head := 0, error := if cdrom then 1 else 0, sector := 1,
                     sectorCount := 1, status := if cdrom then 0 else RDY);
      if drive.present && drv == 0 {
        r := r.(cylinder := if cdrom then 0xEB14 else 0);
      } else {
        r := r.(cylinder := 0xFFFF);
      }
      Answer(r, ResetSet);
    }

    method Resize(sectors: Byte, heads: nat)
      requires Ready() && heads <= 256
      modifies this`drive
      ensures Ready() && State() == SetGeometry(old(State()), sectors, heads)
    {
      hide Cylinders;
      drive := Resized(drive, sectors, heads);
      drive := drive.(id := rom.identify(drive));
    }

    method HandleDiskCmd()
      requires Ready() && phase.DoCmd?
      modifies this`regs, this`drive, this`phase, this`next, this`cnt
      ensures Ready() && State() == DiskCommand(old(State()))
    {
      hide Or;
      regs := Masked(regs, task.cmd);
      hide Masked;
      match task.cmd {
        case 0xEC =>
          regs := FRESH.(drv := regs.drv, ioSize := 1, status := Or(Or(RDY, DRQ), Or(IRQ, END)));
          phase, cnt := SendId, 0;
        case 0x20 => phase := Read;
        case 0x21 => phase := Read;
        case 0x30 => phase := Write;
        case 0x31 => phase := Write;
        case 0x91 => Initialize();
        case _ => OtherDiskCmd();
      }
    }

    method Initialize()
      requires Ready() && phase.DoCmd? && regs.sectorCount < 0x100
      modifies this`regs, this`drive, this`phase, this`next
      ensures Ready()
      ensures var d := old(State());
              State() == Ide.Answer(SetGeometry(d, d.regs.sectorCount, d.regs.head + 1),
                    d.regs.(status := Or(RDY, IRQ)), Idle)
    {
      hide Or, SetGeometry;
      Resize(regs.sectorCount, regs.head + 1);
      Answer(regs.(status := Or(RDY, IRQ)), Idle);
    }

    method OtherDiskCmd()
      requires Ready() && phase.DoCmd?
      modifies this`regs, this`phase, this`next
      ensures Ready()
      ensures var d, done := old(State()), Or(RDY, IRQ);
              State() == if 0x10 <= d.task.cmd <= 0x1F then Ide.Answer(d, d.regs.(status := done, cylinder := 0), Idle)
                         else if d.task.cmd == 0x40 then Ide.Answer(d, d.regs.(status := done), Idle)
                         else Ide.Answer(d, d.regs.(error := 0x04, status := Or(done, ERR)), Idle)
    {
      hide Or;
      var done := Or(RDY, IRQ);
      if 0x10 <= task.cmd <= 0x1F {
        Answer(regs.(status := done, cylinder := 0), Idle);
      } else if task.cmd == 0x40 {
        Answer(regs.(status := done), Idle);
      } else {
        Answer(regs.(error := 0x04, status := Or(done, ERR)), Idle);
      }
    }

    // ---- Packet commands ----

    method Finish(key: Byte, asc: Byte, ascq: Byte, extra: Byte)
      requires Ready()
      modifies this`atapi, this`regs, this`phase, this`next
      ensures Ready() && State() == FinishPacket(old(State()), key, asc, ascq, extra)
    {
      hide Or;
      atapi := atapi.(key := key, asc := asc, ascq := ascq);
      Answer(FinishedRegs(regs, key, extra), Idle);
    }

    method SendData(bytes: seq<Byte>)
      requires Ready()
      modifies this`atapi, this`regs, this`cnt, this`phase
      ensures Ready() && State() == SendPacket(old(State()), bytes)
    {
      hide Or;
      var data := if atapi.limit != 0 && |bytes| > atapi.limit then bytes[..atapi.limit] else bytes;
      if |data| % 2 == 1 {
        data := data + [0];
      }
      assert data == Trimmed(bytes, atapi.limit);
      atapi := atapi.(data := data);
      regs := PacketRegs(regs, |data|);
      cnt, phase := 0, PacketSend;
    }

    method PrepareCdromRead()
      requires Ready()
      modifies this`atapi, this`regs, this`cnt, this`phase, this`next
      ensures Ready() && State() == ReadBlocks(old(State()))
    {
      hide FinishPacket, SendPacket, Chunk;
      if atapi.remaining == 0 {
        Finish(0, 0, 0, 0);
        return;
      }
      var n := Chunk(atapi.remaining, atapi.limit);
      var offset := atapi.lba * BLOCK;
      if offset + n * BLOCK > image.Length {
        Finish(5, 0x21, 0, 0);
        return;
      }
      var data := image[offset..offset + n * BLOCK];
      assert data == image[..][offset..offset + n * BLOCK];
      atapi := atapi.(lba := (atapi.lba + n) % 0x1_0000_0000, remaining := atapi.remaining - n);
      SendData(data);
    }

    method SendSense()
      requires Ready()
      modifies this`atapi, this`regs, this`cnt, this`phase
      ensures Ready() && State() == ClearSense(SendPacket(old(State()), SenseData(old(State()))))
    {
      hide SendPacket;
      var data := [0x70, 0, atapi.key % 0x10, 0, 0, 0, 0, 10, 0, 0, 0, 0, atapi.asc, atapi.ascq, 0, 0, 0, 0];
      if atapi.packet[4] < 18 {
        data := data[..atapi.packet[4]];
      }
      SendData(data);
      atapi := atapi.(key := 0, asc := 0, ascq := 0);
    }

    method DoPacket()
      requires Ready() && phase.PacketHandle?
      modifies this`atapi, this`regs, this`cnt, this`phase, this`next
      ensures Ready() && State() == HandlePacket(old(State()))
    {
      hide FinishPacket, SendPacket, ReadBlocks, SenseData;
      var opcode := atapi.packet[0];
      if NoData(opcode) {
        Finish(0, 0, 0, 0);
      } else if opcode == 0x2B {
        Finish(0, 0, 0, DSC);
      } else if opcode == 0x03 {
        SendSense();
      } else if opcode == 0x25 {
        SendData(PushBe32(if drive.totalSectors != 0 then drive.totalSectors - 1 else 0) + PushBe32(BLOCK));
      } else if opcode == 0x28 {
        atapi := atapi.(lba := Be32(atapi.packet, 2), remaining := Be16(atapi.packet, 7));
        PrepareCdromRead();
      } else if opcode == 0xA8 {
        atapi := atapi.(lba := Be32(atapi.packet, 2), remaining := Be32(atapi.packet, 6));
        PrepareCdromRead();
      } else if Informational(opcode) {
        Inform();
      } else {
        Finish(5, 0x20, 0, 0);
      }
    }

    method Inform()
      requires Ready()
      modifies this`atapi, this`regs, this`cnt, this`phase, this`next
      ensures Ready()
      ensures State() == match rom.respond(old(atapi).packet, drive)
                         case Data(bytes) => SendPacket(old(State()), bytes)
                         case Reject(asc) => FinishPacket(old(State()), 5, asc, 0, 0)
    {
      match rom.respond(atapi.packet, drive) {
        case Data(bytes) => SendData(bytes);
        case Reject(asc) => Finish(5, asc, 0, 0);
      }
    }

    method OpenPacket()
      requires Ready() && phase.DoCmd? && task.cmd == 0xA0
      modifies this`atapi, this`regs, this`phase, this`next
      ensures Ready() && State() == CdromCommand(old(State()))
    {
      hide Or, FinishPacket;
      if task.features % 2 == 1 {
        Finish(5, 0x20, 0, 0);
      } else {
        var limit := regs.cylinder % 0x1_0000;
        atapi := atapi.(limit := if limit != 0 then limit else 32 * 512);
        Answer(regs.(pktIoSize := 6, sectorCount := 1, error := 0, status := Or(RDY, DRQ)), PacketWaitReq);
      }
    }

    method HandleCdromCmd()
      requires Ready() && phase.DoCmd?
      modifies this`atapi, this`regs, this`cnt, this`phase, this`next
      ensures Ready() && State() == CdromCommand(old(State()))
    {
      hide Or, FinishPacket, FinishedRegs;
      match task.cmd {
        case 0xA1 =>
          regs := FRESH.(drv := regs.drv, pktIoSize := 256, status := Or(Or(RDY, DRQ), Or(IRQ, END)));
          cnt, phase := 0, SendId;
        case 0xA0 => OpenPacket();
        case 0x08 =>
          Answer(regs.(error := 1, sectorCount := 1, sector := 1, cylinder := 0xEB14, head := 0, pktIoSize := 0,
                       status := 0), Idle);
        case 0xEF => Answer(regs.(error := 0, status := Or(RDY, IRQ)), Idle);
        case _ =>
          Answer(regs.(error := 0x04, sectorCount := 1, sector := 1, cylinder := 0xEB14,
                       status := Or(Or(RDY, ERR), IRQ)), Idle);
      }
    }

    method HandleCmd()
      requires Ready() && phase.DoCmd?
      modifies this`atapi, this`regs, this`drive, this`cnt, this`phase, this`next
      ensures Ready() && State() == HandleCommand(old(State()))
    {
      hide Or, CdromCommand, DiskCommand;
      if !drive.present || regs.drv != 0 {
        Answer(regs.(error := 0x04, status := Or(Or(RDY, ERR), IRQ)), Idle);
      } else if cdrom {
        HandleCdromCmd();
      } else {
        HandleDiskCmd();
      }
    }

    method PacketRecv(data: Word16) returns (op: Op)
      requires Ready() && phase.PacketRecv?
      modifies this`atapi, this`cnt, this`phase, this`addr
      ensures Ready() && Step(State(), op) == ReceivePacket(old(State()), data)
    {
      if cnt > 0 {
        var k := 2 * cnt - 2;
        atapi := atapi.(packet := atapi.packet[k := data % 0x100][k + 1 := data / 0x100]);
      }
      if cnt < 6 {
        op := PulseRead((base + 255) % 0x1_0000);
        cnt := cnt + 1;
      } else {
        cnt := 0;
        op := PulseWrite((base + 7) % 0x1_0000, 0);
        phase := PacketHandle;
      }
    }

    method SendPacketWord() returns (op: Op)
      requires Ready() && phase.PacketSend?
      modifies this`cnt, this`regs, this`phase, this`next, this`addr
      ensures Ready() && Step(State(), op) == SendPacketData(old(State()))
    {
      if cnt < regs.pktIoSize {
        op := PulseWrite((base + 255) % 0x1_0000, Word(atapi.data[2 * cnt], atapi.data[2 * cnt + 1]));
        cnt := cnt + 1;
      } else {
        cnt := 0;
        op := Quiet;
        Answer(regs, PacketReadWaitReq);
      }
    }

    // ---- The clock ----

    method ReadPhase(i: Inp) returns (op: Op)
      requires Ready() && Reading(phase)
      modifies this
      ensures Ready() && Step(State(), op) == ReadStep(old(State()), i)
      ensures cooldown == old(cooldown) && delay == old(delay)
    {
      hide ReadSector, SendSector;
      op := Quiet;
      match phase {
        case Read => phase := Phase.ReadRegs;
        case ReadRegs => ReadRegs();
        case ReadSend => op := ReadSend();
        case ReadWaitReq =>
          if i.request == 5 {
            phase := Phase.ReadRegs;
          } else if i.request != 0 {
            phase := Idle;
          }
      }
    }

    method WritePhase(i: Inp) returns (op: Op)
      requires Ready() && Writing(phase)
      modifies this, image
      ensures Ready() && Step(State(), op) == WriteStep(old(State()), i)
      ensures cooldown == old(cooldown) && delay == old(delay)
    {
      hide OpenSector, ReceiveSector;
      op := Quiet;
      match phase {
        case Write =>
          irqPending := 0;
          phase := Phase.WriteRegs;
        case WriteRegs => WriteRegs();
        case WriteRecv => op := WriteRecv(i.data);
        case WriteWaitReq =>
          if i.request == 5 {
            cnt := 0;
            phase := Phase.WriteRecv;
          } else if i.request != 0 {
            phase := Idle;
          }
      }
    }

    method PacketPhase(i: Inp) returns (op: Op)
      requires Ready() && InPacket(phase)
      modifies this
      ensures Ready() && Step(State(), op) == PacketStep(old(State()), i)
      ensures cooldown == old(cooldown) && delay == old(delay)
    {
      hide ReceivePacket, HandlePacket, SendPacketData, ReadBlocks;
      op := Quiet;
      match phase {
        case PacketWaitReq =>
          if i.request == 5 {
            cnt := 0;
            atapi := atapi.(packet := seq(12, _ => 0));
            phase := Phase.PacketRecv;
          } else if i.request != 0 {
            phase := Idle;
          }
        case PacketRecv => op := PacketRecv(i.data);
        case PacketHandle => DoPacket();
        case PacketSend => op := SendPacketWord();
        case PacketReadWaitReq =>
          if i.request == 5 {
            PrepareCdromRead();
          } else if i.request != 0 {
            phase := Idle;
          }
      }
    }

    method SendIdWord() returns (op: Op)
      requires Ready() && phase.SendId?
      modifies this`cnt, this`regs, this`phase, this`next, this`addr
      ensures Ready()
      ensures var d := old(State());
              Step(State(), op) == if d.cnt < 256 then DoWrite(d.(cnt := d.cnt + 1), Port(d, 255), d.drive.id[d.cnt])
                                   else Silent(Ide.Answer(d, d.regs, Idle))
    {
      if cnt < 256 {
        op := PulseWrite((base + 255) % 0x1_0000, drive.id[cnt]);
        cnt := cnt + 1;
      } else {
        op := Quiet;
        Answer(regs, Idle);
      }
    }

    method Announce() returns (op: Op)
      requires Ready() && phase.Initial?
      modifies this`phase, this`addr
      ensures Ready()
      ensures Step(State(), op) == DoWrite(old(State()).(phase := Idle), Port(old(State()), 6),
            if drive.present then 9 else 8)
    {
      op := PulseWrite((base + 6) % 0x1_0000, if drive.present then 9 else 8);
      phase := Idle;
    }

    method Idling(i: Inp) returns (op: Op)
      requires Ready() && phase.Idle?
      modifies this`phase, this`addr
      ensures Ready() && Step(State(), op) == CommandStep(old(State()), i)
    {
      op := Quiet;
      if i.request == 4 {
        op := PulseRead(base % 0x1_0000);
        phase := GetCmd;
      } else if i.request == 6 {
        op := PulseRead((base + 5) % 0x1_0000);
        phase := Phase.GetResetDrive;
      }
    }

    method CommandPhase(i: Inp) returns (op: Op)
      requires Ready() && !Reading(phase) && !Writing(phase) && !InPacket(phase)
      modifies this
      ensures Ready() && Step(State(), op) == CommandStep(old(State()), i)
      ensures cooldown == old(cooldown) && delay == old(delay)
    {
      hide LoadCommand, HandleCommand, ResetDrive, StageRegs, SendRegs, Port;
      op := Quiet;
      match phase {
        case Initial => op := Announce();
        case Idle => op := Idling(i);
        case GetResetDrive => GetResetDrive(i.data);
        case ResetSet => phase := Idle;
        case GetCmd => op := LoadWord(i.data);
        case DoCmd => HandleCmd();
        case SendId => op := SendIdWord();
        case SetRegs => StageBlock();
        case SetRegsSend => op := SendBlock();
      }
    }

    /** tick: one clock, with what the host shows and the delay drawn if this
        clock uses the bus. */
    method Tick(reset: bool, i: Inp, jitter: nat) returns (op: Op)
      requires Ready()
      modifies this, image
      ensures Ready()
      ensures P.Ticked(Ticker(), op) == P.Clock(old(Ticker()), reset, i, jitter)
    {
      hide ReadStep, WriteStep, PacketStep, CommandStep;
      op := Quiet;
      if reset {
        phase, next := Initial, Idle;
        regs := FRESH.(status := if cdrom then 0 else RDY);
        cooldown, delay := false, 0;
      } else if cooldown {
        cooldown := false;
      } else if delay > 0 {
        delay := delay - 1;
      } else {
        op := Act(i);
        if op != Quiet {
          cooldown, delay := true, jitter;
        }
      }
    }

    method Act(i: Inp) returns (op: Op)
      requires Ready()
      modifies this, image
      ensures Ready() && Step(State(), op) == Next(old(State()), i)
      ensures cooldown == old(cooldown) && delay == old(delay)
    {
      hide ReadStep, WriteStep, PacketStep, CommandStep;
      if Reading(phase) {
        op := ReadPhase(i);
      } else if Writing(phase) {
        op := WritePhase(i);
      } else if InPacket(phase) {
        op := PacketPhase(i);
      } else {
        op := CommandPhase(i);
      }
    }
  }
}
