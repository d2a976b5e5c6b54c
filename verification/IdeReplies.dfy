/** What the guest sees of every command that moves no sectors, in the numbers
    of ATA/ATAPI-6 (T13/1410D): whole commands, from the command block to the
    last word of the reply. */
module IdeReplies {
  import opened Platform
  import opened Ide
  import opened IdeRuns
  import opened IdePackets
  import C = IdePacketCommands

  // ---- The register block as the guest reads it ----

  /** The task file as the guest finds it: the error register, the sector
      count or interrupt reason, the sector number, the cylinder or byte
      count, the words of a data phase, the device register, the status. */
  datatype Told = Told(unit: nat, error: nat, count: nat, sector: nat, cylinder: nat, words: nat, device: nat,
                       status: nat)

  predicate Narrow(w: Told) {
    && w.unit < 0x100 && w.error < 0x100 && w.count < 0x100 && w.sector < 0x100
    && w.cylinder < 0x1_0000_0000 && w.words < 0x1_0000 && w.device < 0x100 && w.status < 0x100
  }

  /** Six words at six registers, the lower byte first. */
  function Sent(base: nat, w: Told): seq<Op>
    requires base + 5 < 0x1_0000 && Narrow(w)
  {
    [Wr(base, w.unit + 0x100 * w.error), Wr(base + 1, w.count + 0x100 * w.sector),
     Wr(base + 2, w.cylinder % 0x1_0000), Wr(base + 3, w.cylinder / 0x1_0000),
     Wr(base + 4, w.words), Wr(base + 5, w.device + 0x100 * w.status)]
  }

  /** The registers that the guest can be told of. */
  predicate Tellable(r: Regs) {
    r.head < 0x10 && r.lba < 2 && r.drv < 2
  }

  function Telling(r: Regs, cdrom: bool): (w: Told)
    ensures Tellable(r) ==> Narrow(w)
  {
    Told(if cdrom then 0x80 else r.ioSize, r.error, r.sectorCount % 0x100, r.sector % 0x100, r.cylinder, r.pktIoSize,
         0xA0 + 0x40 * (r.lba as int) + 0x10 * (r.drv as int) + r.head, r.status)
  }

  lemma SixWords(base: Word16, b: seq<Byte>)
    requires |b| == 12 && base + 5 < 0x1_0000
    ensures BlockFrom(base, b, 0)
         == [Wr(base, Word(b[0], b[1])), Wr(base + 1, Word(b[2], b[3])), Wr(base + 2, Word(b[4], b[5])),
             Wr(base + 3, Word(b[6], b[7])), Wr(base + 4, Word(b[8], b[9])), Wr(base + 5, Word(b[10], b[11]))]
  {
    hide Word, BlockFrom;
    BlockWord(base, b, 0, 0);
    BlockWord(base, b, 0, 1);
    BlockWord(base, b, 0, 2);
    BlockWord(base, b, 0, 3);
    BlockWord(base, b, 0, 4);
    BlockWord(base, b, 0, 5);
  }

  lemma BlockIsSent(base: Word16, r: Regs, cdrom: bool)
    requires Tellable(r) && base + 5 < 0x1_0000
    ensures BlockFrom(base, Block(r, cdrom), 0) == Sent(base, Telling(r, cdrom))
  {
    BlockBytes(r, cdrom);
    hide Block, Telling, Tellable, Bytes;
    BytesAreSent(base, Block(r, cdrom), Telling(r, cdrom));
  }

  /** The twelve bytes of what the guest is told. */
  predicate Bytes(b: seq<Byte>, w: Told) {
    && |b| == 12 && b[0] == w.unit && b[1] == w.error && b[2] == w.count && b[3] == w.sector
    && Dword(b[4], b[5], b[6], b[7]) == w.cylinder && Word(b[8], b[9]) == w.words
    && b[10] == w.device && b[11] == w.status
  }

  lemma BlockBytes(r: Regs, cdrom: bool)
    requires Tellable(r)
    ensures Bytes(Block(r, cdrom), Telling(r, cdrom))
  {
    BlockTellsRegs(r, cdrom);
    UnitIs(r, cdrom);
    hide Block, Dword, Word;
  }

  lemma BytesAreSent(base: Word16, b: seq<Byte>, w: Told)
    requires |b| == 12 && Bytes(b, w) && base + 5 < 0x1_0000 && Narrow(w)
    ensures BlockFrom(base, b, 0) == Sent(base, w)
  {
    SixWords(base, b);
    Halves(b[4], b[5], b[6], b[7]);
    Pairs(b[0], b[1]);
    Pairs(b[2], b[3]);
    Pairs(b[10], b[11]);
    hide BlockFrom, Dword, Word;
  }

  lemma Pairs(lo: Byte, hi: Byte)
    ensures Word(lo, hi) == lo + 0x100 * hi
  {
  }

  lemma Halves(b0: Byte, b1: Byte, b2: Byte, b3: Byte)
    ensures Word(b0, b1) == Dword(b0, b1, b2, b3) % 0x1_0000 && Word(b2, b3) == Dword(b0, b1, b2, b3) / 0x1_0000
  {
    assert Dword(b0, b1, b2, b3) == Word(b0, b1) + 0x1_0000 * Word(b2, b3);
  }

  lemma UnitIs(r: Regs, cdrom: bool)
    ensures Block(r, cdrom)[0] == if cdrom then 0x80 else r.ioSize
  {
    hide Or;
  }

  lemma Bits()
    ensures Or(RDY, IRQ) == 0x44 && Or(0x44, ERR) == 0x45 && Or(Or(RDY, ERR), IRQ) == 0x45 && Or(RDY, DRQ) == 0x48
    ensures Or(0x44, DSC) == 0x54 && Or(0x45, DSC) == 0x55 && Or(0x40, DSC) == 0x50 && Or(0x44, 0) == 0x44
    ensures Or(0x48, IRQ) == 0x4C && Or(0x48, Or(IRQ, END)) == 0x4E && Or(0x45, 0) == 0x45 && Or(0x54, 0) == 0x54
    ensures !Has(0x44, DRQ) && !Has(0x45, DRQ) && Has(0x4E, DRQ) && !Has(0x40, DRQ)
  {
  }

  // ---- Commands answered by one block ----

  /** The block and what the step after it leaves. */
  lemma Answered(e: Dev, inputs: seq<Inp>)
    requires Valid(e) && e.phase.SetRegs? && |inputs| == 8
    ensures var run, r := Run(e, inputs), Settled(e.regs, e.cdrom);
            && run.ops == BlockFrom(e.base, Block(r, e.cdrom), 0)
            && run.d == e.(regs := r, phase := e.next, cnt := 0, addr := run.d.addr, buf := run.d.buf)
  {
    hide Next, Valid, Block, BlockFrom, Settled;
    Stages(e, inputs[0]);
    C.RunUnfolds(e, inputs);
    var s := Next(e, inputs[0]).d;
    C.BlockGoes(s, inputs[1..]);
  }

  lemma Stages(e: Dev, i: Inp)
    requires Valid(e) && e.phase.SetRegs?
    ensures Next(e, i) == Silent(StageRegs(e))
    ensures var r := Settled(e.regs, e.cdrom);
            StageRegs(e) == e.(regs := r, buf := Block(r, e.cdrom), cnt := 0, phase := SetRegsSend)
  {
    hide Or, Block;
  }

  /** The commands answered at once: those of a disk that move no data, the
      packet device's resets and rejections, and whatever there is no drive
      for. */
  predicate AtOnce(d: Dev, t: Taskfile)
    requires Whole(t)
  {
    var c := Command(t);
    if Absent(d, t) then true
    else if d.cdrom then c != 0xA1 && (c == 0xA0 ==> Hi(t.w[0]) % 2 == 1)
    else c !in {0x20, 0x21, 0x30, 0x31, 0xEC}
  }

  predicate Absent(d: Dev, t: Taskfile)
    requires Whole(t)
  {
    !d.drive.present || Lo(t.w[5]) / 0x10 % 2 == 1
  }

  /** The device register as the guest wrote it, without its obsolete bits. */
  function Device(t: Taskfile): nat
    requires Whole(t)
  {
    0xA0 + 0x40 * (Lo(t.w[5]) / 0x40 % 2) + 0x10 * (Lo(t.w[5]) / 0x10 % 2) + Lo(t.w[5]) % 0x10
  }

  /** The reply of such a command. A disk shows seek complete in its status
      (bit 4); errors are aborts (error bit 2, status bit 0). */
  function Reply(d: Dev, t: Taskfile): (w: Told)
    requires Whole(t)
    ensures Narrow(w)
  {
    var c := Command(t);
    var seek := if d.cdrom then 0 else 0x10;
    var was := Told(if d.cdrom then 0x80 else d.regs.ioSize, d.regs.error, Lo(t.w[1]), Hi(t.w[1]), t.w[2],
                    d.regs.pktIoSize, Device(t), 0x44 + seek);
    var whole := was.(cylinder := Pair(t.w[2], t.w[4], 0x1_0000));
    if Absent(d, t) then whole.(error := 0x04, status := 0x45 + seek)
    else if d.cdrom then
      if c == 0xA0 then whole.(error := 0x50, count := 3, words := 0, status := 0x45)
      else if c == 0x08 then
        was.(error := 1, count := 1, sector := 1, cylinder := 0xEB14, words := 0, status := 0,
             device := Device(t) - Lo(t.w[5]) % 0x10)
      else if c == 0xEF then whole.(error := 0)
      else was.(error := 0x04, count := 1, sector := 1, cylinder := 0xEB14, status := 0x45)
    else if c == 0x91 || c == 0x40 then was
    else if c / 0x10 == 1 then was.(cylinder := 0)
    else was.(error := 0x04, status := 0x55)
  }

  /** What the drive is afterwards: INITIALIZE DEVICE PARAMETERS gives it the
      heads and sectors asked for, as many cylinders as that makes, and new
      IDENTIFY words; and a PACKET with DMA leaves sense data. */
  ghost predicate After(d: Dev, t: Taskfile, e: Dev)
    requires Whole(t)
  {
    var c, here := Command(t), !Absent(d, t);
    && e.image == d.image && e.rom == d.rom && e.cdrom == d.cdrom && e.base == d.base && e.id == d.id
    && e.phase.Idle?
    && (if here && !d.cdrom && c == 0x91 then
          var heads, spt := Lo(t.w[5]) % 0x10 + 1, if Lo(t.w[1]) == 0 then 63 else Lo(t.w[1]);
          && e.drive == d.drive.(heads := heads, spt := spt, cylinders := e.drive.cylinders, id := e.drive.id)
          && e.drive.id == d.rom.identify(e.drive.(id := d.drive.id))
          && CylindersAre(e.drive.cylinders, d.drive.totalSectors, heads * spt)
        else e.drive == d.drive)
    && e.atapi == if here && d.cdrom && c == 0xA0 then d.atapi.(key := 5, asc := 0x20, ascq := 0) else d.atapi
  }

  /** As many whole cylinders as there are sectors for, at most 65535. */
  predicate CylindersAre(n: nat, total: nat, size: nat) {
    n <= 65535 && n * size <= total && (n < 65535 ==> total < (n + 1) * size)
  }

  lemma CylindersFit(total: Word32, heads: nat, spt: nat)
    requires 1 <= heads && 1 <= spt
    ensures CylindersAre(Cylinders(total, heads, spt), total, heads * spt)
  {
    hide CylindersAre;
    var size: nat := heads * spt;
    Positive(heads, spt);
    CappedFits(total, size);
    assert Cylinders(total, heads, spt) == Capped(total, size);
  }

  lemma Positive(a: nat, b: nat)
    requires 1 <= a && 1 <= b
    ensures 1 <= a * b
  {
  }

  function Quotient(total: nat, size: nat): nat
    requires size > 0
  {
    total / size
  }

  function Capped(total: nat, size: nat): nat
    requires size > 0
  {
    if Quotient(total, size) > 65535 then 65535 else Quotient(total, size)
  }

  predicate Between(total: nat, size: nat, n: nat) {
    n * size <= total < (n + 1) * size
  }

  lemma CappedFits(total: nat, size: nat)
    requires size > 0
    ensures CylindersAre(Capped(total, size), total, size)
  {
    hide CylindersAre, Quotient, Between;
    QuotientFits(total, size);
    if Quotient(total, size) > 65535 {
      MostFits(total, size, Quotient(total, size));
    } else {
      ExactFits(total, size, Quotient(total, size));
    }
  }

  lemma MostFits(total: nat, size: nat, n: nat)
    requires n > 65535 && Between(total, size, n)
    ensures CylindersAre(65535, total, size)
  {
    Cut(65535, n, size);
  }

  lemma ExactFits(total: nat, size: nat, n: nat)
    requires n <= 65535 && Between(total, size, n)
    ensures CylindersAre(n, total, size)
  {
  }

  lemma QuotientFits(total: nat, size: nat)
    requires size > 0
    ensures Between(total, size, Quotient(total, size))
  {
    var n := total / size;
    assert (n + 1) * size == n * size + size;
  }

  lemma Cut(m: nat, n: nat, size: nat)
    ensures m <= n ==> m * size <= n * size
  {
    if m <= n {
      assert n * size == m * size + (n - m) * size;
    }
  }

  /** The registers of the reply, and the drive behind them. */
  ghost predicate Answers(d: Dev, t: Taskfile, e: Dev)
    requires Whole(t)
  {
    && e.phase.SetRegs? && e.next.Idle? && Tellable(e.regs) && After(d, t, e.(phase := Idle))
    && Telling(Settled(e.regs, e.cdrom), e.cdrom) == Reply(d, t)
  }

  lemma AbsentAnswers(d: Dev, t: Taskfile)
    requires Whole(t) && Valid(Decoded(d, t)) && Absent(d, t)
    ensures Answers(d, t, HandleCommand(Decoded(d, t)))
  {
    Bits();
    LowBytes(t);
    hide Or, Has, Valid, SetGeometry, FinishPacket, CylindersAre, Lo, Hi, Pair;
  }

  lemma LowBytes(t: Taskfile)
    requires Whole(t)
    ensures Pair(Lo(t.w[1]), Lo(t.w[3]), 0x100) % 0x100 == Lo(t.w[1])
    ensures Pair(Hi(t.w[1]), Hi(t.w[3]), 0x100) % 0x100 == Hi(t.w[1])
    ensures Pair(t.w[2], t.w[4], 0x1_0000) % 0x1_0000 == t.w[2]
  {
  }

  lemma CdAnswers(d: Dev, t: Taskfile)
    requires Whole(t) && Valid(Decoded(d, t)) && !Absent(d, t) && d.cdrom && AtOnce(d, t)
    ensures Answers(d, t, HandleCommand(Decoded(d, t)))
  {
    hide Or, Has, Valid, HandleCommand, Settled, Telling, Reply, Loaded;
    IsDecoded(d, t);
    var c := Decoded(d, t);
    CdDispatch(c);
    CdTold(d, t, HandleCommand(c).regs);
    hide CylindersAre;
  }

  lemma CdDispatch(c: Dev)
    requires Valid(c) && c.phase.DoCmd? && c.drive.present && c.regs.drv == 0 && c.cdrom
    requires c.task.cmd != 0xA1 && (c.task.cmd == 0xA0 ==> c.task.features % 2 == 1)
    ensures HandleCommand(c)
         == if c.task.cmd == 0xA0 then
              Answer(c.(atapi := c.atapi.(key := 5, asc := 0x20, ascq := 0)),
                     c.regs.(sectorCount := 3, pktIoSize := 0, error := 0x50, status := 0x45), Idle)
            else Answer(c, CdRegs(c.regs, c.task.cmd), Idle)
  {
    Bits();
    hide Or;
  }

  function CdRegs(r: Regs, n: Byte): Regs {
    if n == 0x08 then
      r.(error := 1, sectorCount := 1, sector := 1, cylinder := 0xEB14, head := 0, pktIoSize := 0, status := 0)
    else if n == 0xEF then r.(error := 0, status := 0x44)
    else r.(error := 0x04, sectorCount := 1, sector := 1, cylinder := 0xEB14, status := 0x45)
  }

  lemma CdTold(d: Dev, t: Taskfile, r: Regs)
    requires Whole(t) && !Absent(d, t) && d.cdrom && AtOnce(d, t)
    requires var c, n := Loaded(d.regs, t), Command(t);
             r == if n == 0xA0 then c.(sectorCount := 3, pktIoSize := 0, error := 0x50, status := 0x45)
                  else CdRegs(c, n)
    ensures Tellable(r) && Telling(Settled(r, true), true) == Reply(d, t)
  {
    LowBytes(t);
    hide Lo, Hi, Pair;
  }

  lemma DiskAnswers(d: Dev, t: Taskfile)
    requires Whole(t) && Valid(Decoded(d, t)) && !Absent(d, t) && !d.cdrom && AtOnce(d, t)
    ensures Answers(d, t, HandleCommand(Decoded(d, t)))
  {
    hide Or, Has, Valid, SetGeometry, CylindersAre, HandleCommand, Masked, Loaded, Settled, Telling, Reply;
    var c := Decoded(d, t);
    assert c.phase.DoCmd? && c.task.cmd == Command(t) && c.regs == Loaded(d.regs, t) && c.regs.drv == 0 by {
      IsDecoded(d, t);
    }
    DiskDispatch(c);
    MaskedTells(d, t);
    DiskTold(d, t, HandleCommand(c).regs);
    if Command(t) == 0x91 {
      GeometryIs(d, t);
    }
    hide Decoded;
  }

  lemma IsDecoded(d: Dev, t: Taskfile)
    requires Whole(t)
    ensures var c := Decoded(d, t);
            && c.phase.DoCmd? && c.task.cmd == Command(t) && c.task.features == Hi(t.w[0])
            && c.regs == Loaded(d.regs, t)
            && (!Absent(d, t) ==> c.regs.drv == 0)
  {
  }

  lemma DiskTold(d: Dev, t: Taskfile, r: Regs)
    requires Whole(t) && !Absent(d, t) && !d.cdrom && AtOnce(d, t)
    requires var m, n := Masked(Loaded(d.regs, t), Command(t)), Command(t);
             r == if n == 0x91 || n == 0x40 then m.(status := 0x44)
                  else if n / 0x10 == 1 then m.(status := 0x44, cylinder := 0)
                  else m.(error := 0x04, status := 0x45)
    ensures Tellable(r) && Telling(Settled(r, false), false) == Reply(d, t)
  {
    MaskedTells(d, t);
    Bits();
    hide Or, Has, Masked, Loaded;
  }

  lemma DiskDispatch(c: Dev)
    requires Valid(c) && c.phase.DoCmd? && c.drive.present && c.regs.drv == 0 && !c.cdrom
    requires c.task.cmd !in {0x20, 0x21, 0x30, 0x31, 0xEC}
    ensures var m, n := c.(regs := Masked(c.regs, c.task.cmd)), c.task.cmd;
            HandleCommand(c)
            == if n == 0x91 then
                 Answer(SetGeometry(m, m.regs.sectorCount, m.regs.head + 1), m.regs.(status := 0x44), Idle)
               else if n / 0x10 == 1 then Answer(m, m.regs.(status := 0x44, cylinder := 0), Idle)
               else if n == 0x40 then Answer(m, m.regs.(status := 0x44), Idle)
               else Answer(m, m.regs.(error := 0x04, status := 0x45), Idle)
  {
    Bits();
    hide Or, Masked, SetGeometry;
  }

  lemma MaskedTells(d: Dev, t: Taskfile)
    requires Whole(t)
    ensures var m := Masked(Loaded(d.regs, t), Command(t));
            && m == d.regs.(sectorCount := m.sectorCount, sector := Hi(t.w[1]), cylinder := t.w[2],
                            head := Lo(t.w[5]) % 0x10, drv := Lo(t.w[5]) / 0x10 % 2, lba := Lo(t.w[5]) / 0x40 % 2)
            && m.sectorCount % 0x100 == Lo(t.w[1])
  {
    LowBytes(t);
    hide Pair;
  }

  lemma GeometrySet(m: Dev, sectors: Byte, heads: nat)
    requires Valid(m) && 1 <= heads <= 256
    ensures var e, spt := SetGeometry(m, sectors, heads), if sectors == 0 then 63 else sectors;
            && e == m.(drive := e.drive)
            && e.drive == m.drive.(heads := heads, spt := spt, cylinders := e.drive.cylinders, id := e.drive.id)
            && e.drive.id == m.rom.identify(e.drive.(id := m.drive.id))
            && CylindersAre(e.drive.cylinders, m.drive.totalSectors, heads * spt)
  {
    CylindersFit(m.drive.totalSectors, heads, if sectors == 0 then 63 else sectors);
    hide Cylinders, CylindersAre;
  }

  lemma GeometryIs(d: Dev, t: Taskfile)
    requires Whole(t) && Valid(Decoded(d, t)) && !Absent(d, t) && !d.cdrom && Command(t) == 0x91
    ensures var c := Decoded(d, t);
            var m := c.(regs := Masked(c.regs, 0x91));
            var e := SetGeometry(m, m.regs.sectorCount, m.regs.head + 1);
            After(d, t, e.(phase := Idle))
  {
    var c := Decoded(d, t);
    var m := c.(regs := Masked(c.regs, 0x91));
    MaskedTells(d, t);
    GeometrySet(m, m.regs.sectorCount, m.regs.head + 1);
    LowBytes(t);
    assert m.regs.sectorCount == m.regs.sectorCount % 0x100;
    hide CylindersAre, SetGeometry, Valid, Lo, Hi, Pair, Absent, TaskOf;
  }

  lemma AnswersAtOnce(d: Dev, t: Taskfile)
    requires Whole(t) && Valid(Decoded(d, t)) && AtOnce(d, t)
    ensures Answers(d, t, HandleCommand(Decoded(d, t)))
  {
    hide Answers, HandleCommand, Decoded, Valid;
    if Absent(d, t) {
      AbsentAnswers(d, t);
    } else if d.cdrom {
      CdAnswers(d, t);
    } else {
      DiskAnswers(d, t);
    }
  }

  /** Such a command as a whole: its words are fetched, the reply goes out,
      and the drive is as the command leaves it. */
  lemma RepliedAtOnce(d: Dev, opening: seq<Inp>, t: Taskfile, after: seq<Inp>)
    requires Ready(d) && Whole(t) && Handover(opening, t) && AtOnce(d, t) && |after| == 8
    ensures var run := Run(d, opening + after);
            run.ops == Fetches(d.base, 0) + Sent(d.base, Reply(d, t)) && After(d, t, run.d)
  {
    CommandArrives(d, opening, t);
    AnswersAtOnce(d, t);
    var e := HandleCommand(Decoded(d, t));
    Answered(e, after);
    RunConcat(d, opening, after);
    SettledTellable(e.regs, e.cdrom);
    AnsweredAfter(d, t, e, Run(e, after).d);
    BlockIsSent(d.base, Settled(e.regs, e.cdrom), e.cdrom);
  }

  lemma SettledTellable(r: Regs, cdrom: bool)
    requires Tellable(r)
    ensures Tellable(Settled(r, cdrom))
  {
    hide Or, Has;
  }

  lemma AnsweredAfter(d: Dev, t: Taskfile, e: Dev, f: Dev)
    requires Whole(t) && Answers(d, t, e) && d.base % 0x10 == 0
    requires f == e.(regs := Settled(e.regs, e.cdrom), phase := e.next, cnt := 0, addr := f.addr, buf := f.buf)
    ensures After(d, t, f) && e.base == d.base && d.base + 5 < 0x1_0000
  {
    hide Settled, Reply, Telling, CylindersAre;
  }

  // ---- IDENTIFY ----

  predicate Identifies(d: Dev, t: Taskfile)
    requires Whole(t)
  {
    !Absent(d, t) && Command(t) == if d.cdrom then 0xA1 else 0xEC
  }

  /** The words of the drive to the data port, from word k on. */
  function IdWords(base: Word16, id: seq<Word16>, k: nat): (ops: seq<Op>)
    requires k <= 256 && |id| == 256
    ensures |ops| == 256 - k
  {
    seq(256 - k, j requires 0 <= j < 256 - k => Wr((base + 255) % 0x1_0000, id[k + j]))
  }

  function Identity(cdrom: bool): (w: Told)
    ensures Narrow(w)
  {
    if cdrom then Told(0x80, 0, 1, 1, 0, 256, 0xA0, 0x4E) else Told(1, 0, 1, 1, 0, 0, 0xA0, 0x4E)
  }

  lemma IdentifyTaken(d: Dev, t: Taskfile)
    requires Whole(t) && Valid(Decoded(d, t)) && Identifies(d, t)
    ensures var e := HandleCommand(Decoded(d, t));
            && e.phase.SendId? && e.cnt == 0 && Tellable(e.regs) && e.regs == Settled(e.regs, e.cdrom)
            && Telling(e.regs, e.cdrom) == Identity(d.cdrom)
            && e == d.(task := e.task, regs := e.regs, addr := e.addr, phase := SendId, cnt := 0)
  {
    Bits();
    IsDecoded(d, t);
    hide Or, Has, Valid, Loaded, SetGeometry, FinishPacket;
  }

  lemma {:induction false} IdSent(d: Dev, inputs: seq<Inp>)
    requires Valid(d) && d.phase.SendId? && d.cnt <= 256 && |inputs| == 257 - d.cnt
    ensures |d.drive.id| == 256
    ensures var run := Run(d, inputs);
            && run.ops == IdWords(d.base, d.drive.id, d.cnt)
            && run.d == d.(phase := SetRegs, next := Idle, cnt := 256, addr := run.d.addr)
    decreases 256 - d.cnt
  {
    hide Next, Valid, Run;
    SendsId(d, inputs[0]);
    C.RunUnfolds(d, inputs);
    var s := Next(d, inputs[0]);
    if d.cnt < 256 {
      IdSent(s.d, inputs[1..]);
      assert IdWords(d.base, d.drive.id, d.cnt) == [s.op] + IdWords(d.base, d.drive.id, d.cnt + 1);
    } else {
      C.RunUnfolds(s.d, inputs[1..]);
    }
  }

  lemma SendsId(d: Dev, i: Inp)
    requires Valid(d) && d.phase.SendId? && d.cnt <= 256
    ensures |d.drive.id| == 256
    ensures var s := Next(d, i);
            if d.cnt < 256 then
              && s.d == d.(cnt := d.cnt + 1, addr := s.d.addr)
              && s.op == Wr((d.base + 255) % 0x1_0000, d.drive.id[d.cnt])
            else s == Silent(d.(phase := SetRegs, next := Idle))
  {
  }

  /** IDENTIFY DEVICE and IDENTIFY PACKET DEVICE as a whole: the drive's 256
      words in order, the block that ends them, and nothing else changed. */
  lemma Identified(d: Dev, opening: seq<Inp>, t: Taskfile, words: seq<Inp>, after: seq<Inp>)
    requires Ready(d) && Whole(t) && Handover(opening, t) && Identifies(d, t) && |words| == 257 && |after| == 8
    ensures |d.drive.id| == 256 && d.base + 5 < 0x1_0000
    ensures var run := Run(d, opening + (words + after));
            && run.ops == Fetches(d.base, 0) + (IdWords(d.base, d.drive.id, 0) + Sent(d.base, Identity(d.cdrom)))
            && run.d.phase.Idle? && run.d.drive == d.drive && run.d.image == d.image && run.d.atapi == d.atapi
  {
    hide HandleCommand, Next, Valid, Decoded, IdWords, Fetches, Settled, Telling, Identity, BlockFrom, Block, Sent;
    hide Handover, Identifies, Run;
    IsReady(d);
    CommandArrives(d, opening, t);
    DecodedPhase(d, t);
    IdentifyTaken(d, t);
    var e := HandleCommand(Decoded(d, t));
    IdSent(e, words);
    var f := Run(e, words).d;
    Answered(f, after);
    RunConcat(e, words, after);
    RunConcat(d, opening, words + after);
    BlockIsSent(d.base, e.regs, d.cdrom);
  }

  lemma IsReady(d: Dev)
    requires Ready(d)
    ensures Valid(d) && d.base + 5 < 0x1_0000 && |d.drive.id| == 256
  {
  }

  // ---- Resets ----

  /** The signature of a drive after a reset. */
  function Signature(d: Dev, device: Byte): (w: Told)
    ensures Narrow(w)
  {
    var drv := device / 0x10 % 2;
    Told(if d.cdrom then 0x80 else d.regs.ioSize, if d.cdrom then 1 else 0, 1, 1,
         if !d.drive.present || drv == 1 then 0xFFFF else if d.cdrom then 0xEB14 else 0,
         d.regs.pktIoSize, 0xA0 + 0x40 * (device / 0x40 % 2) + 0x10 * drv, if d.cdrom then 0 else 0x50)
  }

  lemma ResetTaken(d: Dev, asked: Inp, device: Inp)
    requires Ready(d) && asked.request == 6
    ensures var s := Next(d, asked);
            var e := Next(s.d, device);
            && s.op == Rd((d.base + 5) % 0x1_0000) && e.op.Quiet? && e.d.phase.SetRegs? && e.d.next.ResetSet?
            && Tellable(e.d.regs)
            && Telling(Settled(e.d.regs, d.cdrom), d.cdrom) == Signature(d, device.data % 0x100)
            && e.d == d.(task := e.d.task, regs := e.d.regs, addr := e.d.addr, phase := SetRegs, next := ResetSet)
  {
    Bits();
    hide Or, Has;
  }

  lemma ResetOver(d: Dev, i: Inp)
    requires Valid(d) && d.phase.ResetSet?
    ensures Next(d, i) == Silent(d.(phase := Idle))
  {
  }

  /** A reset from the host as a whole: the device register is read, the
      signature goes out, and the drive waits for a command. */
  lemma ResetSigns(d: Dev, inputs: seq<Inp>)
    requires Ready(d) && |inputs| == 11 && inputs[0].request == 6
    ensures d.base + 5 < 0x1_0000
    ensures var run := Run(d, inputs);
            && run.ops == [Rd(d.base + 5)] + Sent(d.base, Signature(d, inputs[1].data % 0x100))
            && run.d.phase.Idle? && run.d.drive == d.drive && run.d.image == d.image && run.d.atapi == d.atapi
  {
    hide Next, Valid, Settled, Telling, Signature, BlockFrom, Block, Sent, Run;
    IsReady(d);
    ResetTaken(d, inputs[0], inputs[1]);
    var s := Next(d, inputs[0]).d;
    var e := Next(s, inputs[1]).d;
    var block, last := inputs[2..10], inputs[10..];
    assert inputs[1..][0] == inputs[1] && inputs[1..][1..] == inputs[2..] && inputs[2..] == block + last;
    C.RunUnfolds(d, inputs);
    C.RunUnfolds(s, inputs[1..]);
    RunConcat(e, block, last);
    Answered(e, block);
    var f := Run(e, block).d;
    ResetOver(f, last[0]);
    C.RunUnfolds(f, last);
    C.RunUnfolds(f.(phase := Idle), last[1..]);
    SettledTellable(e.regs, e.cdrom);
    BlockIsSent(d.base, Settled(e.regs, d.cdrom), d.cdrom);
  }

  lemma Announces(d: Dev, i: Inp)
    requires Valid(d) && d.phase.Initial?
    ensures Next(d, i) == DoWrite(d.(phase := Idle), Port(d, 6), if d.drive.present then 9 else 8)
  {
  }

  /** The first thing on the bus: whether there is a drive (bit 0). */
  lemma Announced(d: Dev, i: Inp)
    requires Valid(d) && d.phase.Initial?
    ensures var run := Run(d, [i]);
            run.ops == [Wr((d.base + 6) % 0x1_0000, if d.drive.present then 9 else 8)] && run.d.phase.Idle?
  {
    Announces(d, i);
    C.RunUnfolds(d, [i]);
    C.RunUnfolds(Next(d, i).d, []);
    hide Next, Valid, Run;
  }

  // ---- Packet commands ----

  /** The last address of a disc of so many blocks, and the length of a block,
      each as four bytes, the highest first. */
  predicate Capacity(bytes: seq<Byte>, total: Word32) {
    && |bytes| == 8
    && Dword(bytes[3], bytes[2], bytes[1], bytes[0]) == (if total == 0 then 0 else total - 1)
    && bytes[4..] == [0, 0, 8, 0]
  }

  /** What a packet command that is no READ comes to: it completes (SEEK with
      seek complete), sends data, or fails with additional sense. */
  datatype Outcome = Completes(seek: bool) | Sends(bytes: seq<Byte>) | Fails(asc: Byte)

  ghost predicate ComesTo(d: Dev, packet: seq<Byte>, o: Outcome)
    requires |packet| == 12
  {
    var n := packet[0];
    if n in {0x00, 0x1B, 0x1E, 0x35, 0x45, 0x47, 0x4B, 0x4E} then o == Completes(false)
    else if n == 0x2B then o == Completes(true)
    else if n == 0x25 then o.Sends? && Capacity(o.bytes, d.drive.totalSectors)
    else if n in {0x12, 0x42, 0x43, 0x46, 0x5A} then
      var reply := d.rom.respond(packet, d.drive);
      o == if reply.Data? then Sends(reply.bytes) else Fails(reply.asc)
    else n !in {0x03, 0x28, 0xA8} && o == Fails(0x20)
  }

  lemma CapacityIs(total: Word32, last: Word32)
    requires last == if total != 0 then total - 1 else 0
    ensures Capacity(PushBe32(last) + PushBe32(BLOCK), total)
  {
    hide Dword, PushBe32;
    Pushed(last);
    BlockSize();
    var a, b := PushBe32(last), PushBe32(BLOCK);
    assert (a + b)[4..] == b;
    assert Dword(a[3], a[2], a[1], a[0]) == last;
  }

  lemma BlockSize()
    ensures PushBe32(BLOCK) == [0, 0, 8, 0]
  {
  }

  lemma Pushed(v: Word32)
    ensures var b := PushBe32(v); |b| == 4 && Dword(b[3], b[2], b[1], b[0]) == v
  {
    FourBytes(v);
    hide Dword;
  }

  lemma OneCapacity(a: seq<Byte>, b: seq<Byte>, total: Word32)
    requires Capacity(a, total) && Capacity(b, total)
    ensures a == b
  {
    Halves(a[3], a[2], a[1], a[0]);
    Halves(b[3], b[2], b[1], b[0]);
    hide Dword;
    assert a[4] == a[4..][0] && a[5] == a[4..][1] && a[6] == a[4..][2] && a[7] == a[4..][3];
    assert b[4] == b[4..][0] && b[5] == b[4..][1] && b[6] == b[4..][2] && b[7] == b[4..][3];
  }

  lemma PacketDispatch(e: Dev, o: Outcome)
    requires InCdHandle(e) && ComesTo(e, e.atapi.packet, o)
    ensures HandlePacket(e)
         == match o
            case Completes(seek) => FinishPacket(e, 0, 0, 0, if seek then DSC else 0)
            case Sends(bytes) => SendPacket(e, bytes)
            case Fails(asc) => FinishPacket(e, 5, asc, 0, 0)
  {
    if e.atapi.packet[0] == 0x25 {
      var last := if e.drive.totalSectors != 0 then e.drive.totalSectors - 1 else 0;
      CapacityIs(e.drive.totalSectors, last);
      OneCapacity(PushBe32(last) + PushBe32(BLOCK), o.bytes, e.drive.totalSectors);
    }
    hide FinishPacket, SendPacket, Capacity, PushBe32, SenseData, ReadBlocks;
  }

  /** The blocks of a packet command: it asks for the packet (reason 1), has
      data for the guest, so many bytes (reason 2), and is over (reason 3),
      with the sense key in the upper half of the error register. */
  function Asking(t: Taskfile): (w: Told)
    requires Whole(t)
    ensures Narrow(w)
  {
    Told(0x80, 0, 1, Hi(t.w[1]), Pair(t.w[2], t.w[4], 0x1_0000), 6, Device(t), 0x48)
  }

  function Offering(t: Taskfile, size: nat): (w: Told)
    requires Whole(t) && size <= 0x1_0000
    ensures Narrow(w)
  {
    Asking(t).(count := 2, cylinder := size, words := size / 2, status := 0x4C)
  }

  function Ending(t: Taskfile, key: Byte, seek: bool): (w: Told)
    requires Whole(t) && key < 0x10
    ensures Narrow(w)
  {
    Asking(t).(count := 3, words := 0, error := 0x10 * key,
               status := if key != 0 then 0x45 else if seek then 0x54 else 0x44)
  }

  lemma AskTells(d: Dev, t: Taskfile)
    requires Whole(t)
    ensures var r := C.AskRegs(d, t); Tellable(r) && Telling(r, true) == Asking(t)
  {
    Bits();
    LowBytes(t);
    hide Or, Pair;
  }

  lemma OfferTells(t: Taskfile, r: Regs, size: nat)
    requires Whole(t) && Tellable(r) && Telling(r, true) == Asking(t) && size <= 0x1_0000
    ensures Tellable(PacketRegs(r, size)) && Telling(PacketRegs(r, size), true) == Offering(t, size)
  {
    Bits();
    assert Asking(t).error == 0;
    hide Or, Pair, Asking;
    assert PacketRegs(r, size)
        == r.(pktIoSize := size / 2, cylinder := size, sectorCount := 2, error := 0, status := 0x4C);
    hide PacketRegs;
  }

  lemma EndTells(r: Regs, key: Byte, seek: bool)
    requires Tellable(r) && (key == 0 || (key == 5 && !seek))
    ensures var f := FinishedRegs(r, key, if seek then DSC else 0);
            && Tellable(f)
            && Telling(f, true) == Telling(r, true).(count := 3, words := 0, error := 0x10 * key,
                                                     status := if key != 0 then 0x45 else if seek then 0x54 else 0x44)
  {
    Bits();
    hide Or;
  }

  /** All that the bus has seen when the packet is in. */
  function Opened(base: nat, t: Taskfile): seq<Op>
    requires Whole(t) && base + 7 < 0x1_0000
  {
    Fetches(base, 0) + (Sent(base, Asking(t)) + PacketReads(base, 0))
  }

  lemma OpensSo(d: Dev, t: Taskfile)
    requires Whole(t) && d.base % 0x10 == 0
    ensures d.base + 7 < 0x1_0000 && C.OpeningOps(d, t) == Opened(d.base, t)
  {
    hide C.AskRegs, Block, BlockFrom, Telling, Sent, Asking, PacketReads, Fetches;
    AskTells(d, t);
    BlockIsSent(d.base, C.AskRegs(d, t), true);
  }

  /** A packet command that sends nothing, as a whole: the drive asks for the
      packet, tells how it went, and remembers the sense data. */
  lemma PacketReplied(d: Dev, o: C.Opening, t: Taskfile, w: seq<Word16>, outcome: Outcome, inputs: seq<Inp>)
    requires Ready(d) && Whole(t) && |w| == 6 && C.ForCd(d, t) && C.Opens(o, t, w) && |inputs| == 9
    requires ComesTo(d, Packed(w, 6), outcome) && !outcome.Sends?
    ensures d.base + 7 < 0x1_0000
    ensures var run, bad := Run(d, C.Inputs(o) + inputs), outcome.Fails?;
            && run.ops == Opened(d.base, t)
                          + Sent(d.base, Ending(t, if bad then 5 else 0, outcome.Completes? && outcome.seek))
            && run.d.phase.Idle? && run.d.drive == d.drive && run.d.image == d.image
            && run.d.atapi == d.atapi.(limit := C.LimitOf(t), packet := Packed(w, 6), key := if bad then 5 else 0,
                                       asc := if bad then outcome.asc else 0, ascq := 0)
  {
    hide HandlePacket, Next, Packed, PacketReads, Fetches, Telling, Sent, Block, BlockFrom, C.Opens, C.AskRegs,
         C.LimitOf, Run, Valid, Asking, C.OpeningOps, FinishedRegs, Opened, Tellable;
    IsReady(d);
    OpensSo(d, t);
    C.PacketHandedOver(d, o, t, w);
    var e := Run(d, C.Inputs(o)).d;
    C.Handles(d, t, w, e, inputs);
    ComesToSame(d, e, Packed(w, 6), outcome);
    PacketDispatch(e, outcome);
    AskTells(d, t);
    EndTells(e.regs, if outcome.Fails? then 5 else 0, outcome.Completes? && outcome.seek);
    var f := HandlePacket(e);
    Answered(f, inputs[1..]);
    RunConcat(d, C.Inputs(o), inputs);
    CdSettled(f.regs);
    BlockIsSent(d.base, f.regs, true);
  }

  lemma CdSettled(r: Regs)
    ensures Settled(r, true) == r
  {
  }

  lemma ComesToSame(d: Dev, e: Dev, packet: seq<Byte>, o: Outcome)
    requires |packet| == 12 && ComesTo(d, packet, o) && e.rom == d.rom && e.drive == d.drive
    ensures ComesTo(e, packet, o)
  {
  }

  /** The beginning of some data that a limit lets through, made even. */
  predicate CutTo(sent: seq<Byte>, data: seq<Byte>, limit: nat) {
    var n := if |data| <= limit then |data| else limit;
    sent == data[..n] + (if n % 2 == 0 then [] else [0])
  }

  lemma TrimmedCuts(data: seq<Byte>, limit: Word16)
    requires limit != 0
    ensures CutTo(Trimmed(data, limit), data, limit) && |Trimmed(data, limit)| / 2 < 0x1_0000
    ensures |Trimmed(data, limit)| <= 0x1_0000
  {
    assert data[..|data|] == data;
  }

  /** A packet command that sends data, READ CAPACITY among them, for any
      pace: a beginning of these operations, and once it is over all of them.
      The data are cut to the limit of the command, and a block tells their
      length; what an earlier READ left goes out after that. */
  lemma PacketSends(d: Dev, o: C.Opening, t: Taskfile, w: seq<Word16>, outcome: Outcome, inputs: seq<Inp>)
    requires Ready(d) && Whole(t) && |w| == 6 && C.ForCd(d, t) && C.Opens(o, t, w)
    requires ComesTo(d, Packed(w, 6), outcome) && outcome.Sends? && inputs != [] && Patient(inputs)
    ensures d.base + 7 < 0x1_0000
    ensures exists sent, later ::
      && CutTo(sent, outcome.bytes, C.LimitOf(t)) && |sent| <= 0x1_0000
      && (var run := Run(d, C.Inputs(o) + inputs);
          var ops := WordsFrom(d.base, sent, 0) + (Sent(d.base, Offering(t, |sent|)) + later);
          && run.ops <= Opened(d.base, t) + ops
          && (run.d.phase.Idle? ==> run.ops == Opened(d.base, t) + ops)
          && (d.atapi.remaining == 0 ==> later == Sent(d.base, Ending(t, 0, false).(cylinder := |sent|)))
          && run.d.image == d.image && run.d.drive == d.drive)
  {
    hide HandlePacket, Packed, PacketReads, Telling, Sent, Block, BlockFrom, C.Opens, C.AskRegs, C.LimitOf,
         Run, Valid, Asking, C.OpeningOps, Ending, Opened, Trimmed, WordsFrom, CdOps, PacketRegs, InCd, CutTo, Offering,
         Useful, Work, Left, Rest, Tellable, SendPacket, ComesTo;
    IsReady(d);
    OpensSo(d, t);
    C.PacketHandedOver(d, o, t, w);
    var e := Run(d, C.Inputs(o)).d;
    C.Handles(d, t, w, e, inputs);
    RunConcat(d, C.Inputs(o), inputs);
    C.HandedParts(d, t, w, e);
    ComesToSame(d, e, Packed(w, 6), outcome);
    PacketDispatch(e, outcome);
    LimitNotZero(t);
    Sending(e, outcome.bytes);
    var s, rest := HandlePacket(e), inputs[1..];
    C.PatientRest(inputs);
    CdRuns(s, rest);
    C.RestSending(s);
    var sent, later := s.atapi.data, CdOps(s.base, s.image, s.atapi, s.regs);
    TrimmedCuts(outcome.bytes, C.LimitOf(t));
    AskTells(d, t);
    OfferTells(t, e.regs, |sent|);
    BlockIsSent(d.base, s.regs, true);
    var ops := WordsFrom(d.base, sent, 0) + (Sent(d.base, Offering(t, |sent|)) + later);
    var run := Run(s, rest);
    assert run.ops <= ops;
    C.Prefix(Opened(d.base, t), run.ops, ops);
    if run.d.phase.Idle? {
      CdOver(run.d);
      assert run.ops + [] == run.ops;
    }
    if d.atapi.remaining == 0 {
      EndsClean(d.base, t, s.image, s.atapi, s.regs, |sent|);
    }
  }

  lemma LimitNotZero(t: Taskfile)
    requires Whole(t)
    ensures C.LimitOf(t) != 0
  {
  }

  lemma Sending(e: Dev, bytes: seq<Byte>)
    requires InCdHandle(e) && HandlePacket(e) == SendPacket(e, bytes) && e.atapi.limit != 0
    ensures var s, sent := HandlePacket(e), Trimmed(bytes, e.atapi.limit);
            && InCd(s) && Same(e, s) && s.phase.PacketSend? && s.cnt == 0
            && s.atapi == e.atapi.(data := sent) && s.regs == PacketRegs(e.regs, |sent|)
  {
    hide HandlePacket, Trimmed, Or;
    C.TrimmedFits(bytes, e.atapi.limit);
  }

  lemma EndsClean(base: Word16, t: Taskfile, image: seq<Byte>, a: Atapi, r: Regs, size: nat)
    requires Whole(t) && base + 7 < 0x1_0000 && a.remaining == 0 && size <= 0x1_0000
    requires Tellable(r) && Telling(r, true) == Offering(t, size)
    ensures CdOps(base, image, a, r) == Sent(base, Ending(t, 0, false).(cylinder := size))
  {
    EndTells(r, 0, false);
    BlockIsSent(base, FinishedRegs(r, 0, 0), true);
    hide Block, BlockFrom, Sent, FinishedRegs, Telling, Tellable;
  }
}
