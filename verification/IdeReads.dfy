/** READ SECTORS over whole runs: which words and register blocks go out, for
    every way the host paces its requests. */
module IdeReads {
  import opened Platform
  import opened Ide
  import opened IdeAddresses
  import opened IdeRuns

  const DATA_READY: Byte := 0x4C       // RDY | DRQ | IRQ

  function LocateIn(image: seq<Byte>, lba: Word32): (c: Cursor)
    ensures c.Sector? ==> c.offset + 512 <= |image|
  {
    if (lba + 1) * 512 > |image| then NoSector else Sector(lba * 512)
  }

  /** A sector's words on their way to the data port, from word k on. */
  function SectorFrom(base: Word16, image: seq<Byte>, c: Cursor, k: nat): (ops: seq<Op>)
    requires k <= 256 && (c.Sector? ==> c.offset + 512 <= |image|)
    ensures |ops| == 256 - k
    decreases 256 - k
  {
    if k == 256 then []
    else [Wr((base + 255) % 0x1_0000, WordAt(image, c, k))] + SectorFrom(base, image, c, k + 1)
  }

  /** The registers after a sector: at the next address, one fewer to go, and
      marked as the last when none is. */
  function AfterSector(r: Regs, v: Drive): Regs
    requires Geometry(v)
  {
    var count := (r.sectorCount - 1) % 0x1_0000;
    Advance(r, v).(sectorCount := count, ioSize := 1, status := if count == 0 then Or(DATA_READY, END) else DATA_READY)
  }

  /** All that a read still has to send when r.sectorCount sectors from r on
      are left. */
  function ReadOps(base: Word16, image: seq<Byte>, v: Drive, r: Regs): seq<Op>
    requires Geometry(v)
    decreases r.sectorCount
  {
    if r.sectorCount == 0 then []
    else
      var after := AfterSector(r, v);
      SectorFrom(base, image, LocateIn(image, GetLba(r, v)), 0)
      + (BlockFrom(base, Block(after, false), 0) + ReadOps(base, image, v, after))
  }

  // ---- One step ----

  /** A device in a read, or between commands. */
  ghost predicate InRead(d: Dev) {
    && Valid(d) && !d.cdrom
    && match d.phase
       case Read | ReadRegs | ReadWaitReq => d.regs.sectorCount > 0
       case ReadSend => d.cnt <= 256 && Has(d.regs.status, DRQ)
       case SetRegs => Has(d.regs.status, DRQ) && d.next == Then(d)
       case SetRegsSend => Has(d.regs.status, DRQ) && d.next == Then(d) && d.cnt <= 6 && d.buf == Block(d.regs, false)
       case Idle => true
       case _ => false
  }

  function Then(d: Dev): Phase {
    if d.regs.sectorCount != 0 then ReadWaitReq else Idle
  }

  /** What a device in a read still sends. */
  ghost function Rest(d: Dev): seq<Op>
    requires InRead(d)
  {
    var later := ReadOps(d.base, d.image, d.drive, d.regs);
    match d.phase
    case ReadSend => SectorFrom(d.base, d.image, d.words, d.cnt) + (BlockFrom(d.base, Block(d.regs, false), 0) + later)
    case SetRegs => BlockFrom(d.base, Block(d.regs, false), 0) + later
    case SetRegsSend => BlockFrom(d.base, d.buf, d.cnt) + later
    case Idle => []
    case _ => later
  }

  /** The steps it still takes, waits aside. */
  ghost function Work(d: Dev): nat
    requires InRead(d)
  {
    var later := 267 * d.regs.sectorCount;
    match d.phase
    case Read => later
    case ReadRegs => later - 1
    case ReadSend => 265 - d.cnt + later
    case SetRegs => 8 + later
    case SetRegsSend => 7 - d.cnt + later
    case ReadWaitReq => later
    case _ => 0
  }

  /** A step that only waits: for the host's request, or for a command. */
  predicate Waits(d: Dev, i: Inp) {
    d.phase.Idle? || (d.phase.ReadWaitReq? && i.request == 0)
  }

  lemma DataReady()
    ensures Or(Or(RDY, DRQ), IRQ) == DATA_READY
    ensures Has(DATA_READY, DRQ) && Has(Or(DATA_READY, END), DRQ)
    ensures !Has(DATA_READY, END) && Has(Or(DATA_READY, END), END)
  {
  }

  /** What a read never touches. */
  predicate Same(d: Dev, e: Dev) {
    e.base == d.base && e.image == d.image && e.drive == d.drive
  }

  /** A step that sends the next piece of the rest, and counts as work unless
      it waits. */
  ghost predicate Takes(d: Dev, i: Inp, s: Step)
    requires InRead(d)
  {
    && InRead(s.d) && Same(d, s.d)
    && Rest(d) == Emit(s.op) + Rest(s.d)
    && Work(d) == Work(s.d) + (if Waits(d, i) then 0 else 1)
  }

  lemma OpenTakes(d: Dev, i: Inp)
    requires InRead(d) && d.phase.ReadRegs?
    ensures Takes(d, i, Silent(ReadSector(d)))
  {
    DataReady();
    hide Or, Has, Advance, GetLba, Block, SectorFrom, BlockFrom;
    var s := ReadSector(d);
    var after := AfterSector(d.regs, d.drive);
    assert s.regs == after && after.sectorCount == d.regs.sectorCount - 1;
    assert s.words == LocateIn(d.image, GetLba(d.regs, d.drive));
    assert Rest(d) == ReadOps(d.base, d.image, d.drive, d.regs);
    hide ReadOps, AfterSector, ReadSector, LocateIn;
    assert InRead(s);
  }

  lemma Assoc<T>(a: seq<T>, b: seq<T>, c: seq<T>)
    ensures (a + b) + c == a + (b + c)
  {
  }

  lemma UnfoldSector(base: Word16, image: seq<Byte>, c: Cursor, k: nat)
    requires k <= 256 && (c.Sector? ==> c.offset + 512 <= |image|)
    ensures k < 256 ==>
      SectorFrom(base, image, c, k) == [Wr((base + 255) % 0x1_0000, WordAt(image, c, k))] + SectorFrom(base,
            image, c, k + 1)
    ensures k == 256 ==> SectorFrom(base, image, c, k) == []
  {
  }

  lemma SendTakes(d: Dev, i: Inp)
    requires InRead(d) && d.phase.ReadSend?
    ensures Takes(d, i, SendSector(d))
  {
    if d.cnt < 256 {
      SendGoesOn(d, i);
    } else {
      SendEnds(d, i);
    }
  }

  lemma SendGoesOn(d: Dev, i: Inp)
    requires InRead(d) && d.phase.ReadSend? && d.cnt < 256
    ensures Takes(d, i, SendSector(d))
  {
    hide Or, Has, Block, ReadOps, WordAt, Valid, SendSector, Rest;
    SendsWord(d);
    SendRest(d);
  }

  lemma SendsWord(d: Dev)
    requires InRead(d) && d.phase.ReadSend? && d.cnt < 256
    ensures var s := SendSector(d);
            && Valid(s.d) && s.d == d.(cnt := d.cnt + 1, addr := s.d.addr)
            && s.op == Wr((d.base + 255) % 0x1_0000, WordAt(d.image, d.words, d.cnt))
  {
    hide Or, Has, Block, WordAt;
  }

  lemma ValidParts(d: Dev)
    requires Valid(d)
    ensures Geometry(d.drive) && |d.buf| == 12 && (d.words.Sector? ==> d.words.offset + 512 <= |d.image|)
  {
  }

  lemma SendRest(d: Dev)
    requires InRead(d) && d.phase.ReadSend? && d.cnt < 256
    ensures var s := SendSector(d);
            InRead(s.d) && Rest(d) == Emit(s.op) + Rest(s.d)
  {
    hide Or, Has, Block, BlockFrom, ReadOps, SectorFrom, WordAt, Valid, SendSector;
    SendsWord(d);
    ValidParts(d);
    UnfoldSector(d.base, d.image, d.words, d.cnt);
    Assoc(Emit(SendSector(d).op), SectorFrom(d.base, d.image, d.words, d.cnt + 1),
          BlockFrom(d.base, Block(d.regs, false), 0) + ReadOps(d.base, d.image, d.drive, d.regs));
  }

  lemma SendEnds(d: Dev, i: Inp)
    requires InRead(d) && d.phase.ReadSend? && d.cnt == 256
    ensures Takes(d, i, SendSector(d))
  {
    hide Or, Has, Advance, GetLba, Block, ReadOps, SectorFrom, WordAt, BlockFrom;
    UnfoldSector(d.base, d.image, d.words, d.cnt);
  }

  lemma StageTakes(d: Dev, i: Inp)
    requires InRead(d) && d.phase.SetRegs?
    ensures Takes(d, i, Silent(StageRegs(d)))
  {
    hide Or, Has, Advance, GetLba, Block, ReadOps;
    assert Settled(d.regs, d.cdrom) == d.regs;
  }

  lemma BlockTakes(d: Dev, i: Inp)
    requires InRead(d) && d.phase.SetRegsSend?
    ensures Takes(d, i, SendRegs(d))
  {
    hide Or, Has, Advance, GetLba, Block, SectorFrom;
    assert d.regs.sectorCount == 0 ==> ReadOps(d.base, d.image, d.drive, d.regs) == [];
    hide ReadOps;
    if d.cnt == 6 {
      BlockEnds(d);
    } else {
      BlockGoesOn(d);
    }
  }

  lemma BlockGoesOn(d: Dev)
    requires InRead(d) && d.phase.SetRegsSend? && d.cnt < 6
    ensures InRead(SendRegs(d).d) && Rest(d) == Emit(SendRegs(d).op) + Rest(SendRegs(d).d)
  {
    hide Or, Has, Advance, GetLba, Block, SectorFrom, ReadOps;
    var s := SendRegs(d);
    assert BlockFrom(d.base, d.buf, d.cnt) == Emit(s.op) + BlockFrom(d.base, d.buf, d.cnt + 1);
    Assoc(Emit(s.op), BlockFrom(d.base, d.buf, d.cnt + 1), ReadOps(d.base, d.image, d.drive, d.regs));
  }

  lemma BlockEnds(d: Dev)
    requires InRead(d) && d.phase.SetRegsSend? && d.cnt == 6
    requires d.regs.sectorCount == 0 ==> ReadOps(d.base, d.image, d.drive, d.regs) == []
    ensures InRead(SendRegs(d).d) && Rest(SendRegs(d).d) == Rest(d)
  {
    hide Or, Has, Advance, GetLba, Block, SectorFrom, ReadOps;
    assert BlockFrom(d.base, d.buf, d.cnt) == [];
  }

  lemma WaitTakes(d: Dev, i: Inp)
    requires InRead(d) && (d.phase.Read? || d.phase.Idle? || d.phase.ReadWaitReq?)
    requires i.request == 0 || i.request == 5
    ensures Takes(d, i, Next(d, i))
  {
    hide Or, Has, Advance, GetLba, Block, ReadOps;
  }

  /** What the step is in each phase of a read that works on its own. */
  lemma NextInRead(d: Dev, i: Inp)
    requires Valid(d)
    ensures d.phase.ReadRegs? ==> Next(d, i) == Silent(ReadSector(d))
    ensures d.phase.ReadSend? ==> Next(d, i) == SendSector(d)
    ensures d.phase.SetRegs? ==> Next(d, i) == Silent(StageRegs(d))
    ensures d.phase.SetRegsSend? ==> Next(d, i) == SendRegs(d)
  {
  }

  lemma ReadTakesStep(d: Dev, i: Inp)
    requires InRead(d) && (i.request == 0 || i.request == 5)
    ensures Takes(d, i, Next(d, i))
  {
    hide Next, Takes, Valid, ReadSector, SendSector, StageRegs, SendRegs;
    NextInRead(d, i);
    match d.phase
    case ReadRegs => OpenTakes(d, i);
    case ReadSend => SendTakes(d, i);
    case SetRegs => StageTakes(d, i);
    case SetRegsSend => BlockTakes(d, i);
    case _ => WaitTakes(d, i);
  }

  // ---- Whole runs ----

  /** The steps of a run that do not just wait. */
  ghost function Useful(d: Dev, inputs: seq<Inp>): (n: nat)
    requires Valid(d)
    decreases inputs
  {
    if inputs == [] then 0
    else (if Waits(d, inputs[0]) then 0 else 1) + Useful(Next(d, inputs[0]).d, inputs[1..])
  }

  /** A run keeps the account of what is sent and what is left, and finishes
      its work with the last step that is not a wait. */
  lemma {:induction false} ReadRuns(d: Dev, inputs: seq<Inp>)
    requires InRead(d) && Patient(inputs)
    ensures var r := Run(d, inputs);
            && InRead(r.d) && Same(d, r.d)
            && Rest(d) == r.ops + Rest(r.d)
            && Work(d) == Work(r.d) + Useful(d, inputs)
            && (r.d.phase.Idle? <==> Work(r.d) == 0)
    decreases inputs
  {
    hide Next, Rest;
    if inputs == [] {
      hide Valid;
    } else {
      ReadTakesStep(d, inputs[0]);
      var s := Next(d, inputs[0]);
      var r := Run(s.d, inputs[1..]);
      hide InRead, Work, Valid;
      assert Patient(inputs[1..]);
      ReadRuns(s.d, inputs[1..]);
      Assoc(Emit(s.op), r.ops, Rest(r.d));
    }
  }

  // ---- What is sent ----

  /** A sector's bytes; zeros past the image. */
  function SectorBytes(image: seq<Byte>, lba: nat): (b: seq<Byte>)
    ensures |b| == 512
  {
    if (lba + 1) * 512 > |image| then seq(512, _ => 0) else image[lba * 512..(lba + 1) * 512]
  }

  /** The bytes of n sectors from lba on, wrapping at the span. */
  function SectorsFrom(image: seq<Byte>, lba: nat, span: nat, n: nat): (b: seq<Byte>)
    requires span > 0
    ensures |b| == 512 * n
    decreases n
  {
    if n == 0 then [] else SectorBytes(image, lba) + SectorsFrom(image, Onward(lba, 1, span), span, n - 1)
  }

  /** Sectors that lie in the image are that stretch of it. */
  lemma {:induction false} SectorsInImage(image: seq<Byte>, lba: nat, span: nat, n: nat)
    requires span > 0 && (lba + n) * 512 <= |image| && lba + n <= span
    ensures SectorsFrom(image, lba, span, n) == image[lba * 512..(lba + n) * 512]
    decreases n
  {
    if n > 1 {
      Small(lba + 1, span);
      SectorsInImage(image, lba + 1, span, n - 1);
      assert image[lba * 512..(lba + 1) * 512] + image[(lba + 1) * 512..(lba + n) * 512]
            == image[lba * 512..(lba + n) * 512];
    } else if n == 1 {
      assert SectorsFrom(image, Onward(lba, 1, span), span, 0) == [];
    }
  }

  /** The bytes of a sector from word k on. */
  function TailBytes(image: seq<Byte>, c: Cursor, k: nat): seq<Byte>
    requires k <= 256 && (c.Sector? ==> c.offset + 512 <= |image|)
  {
    if c.Sector? then image[c.offset + 2 * k..c.offset + 512] else seq(512 - 2 * k, _ => 0)
  }

  lemma TailSplits(image: seq<Byte>, c: Cursor, k: nat)
    requires k < 256 && (c.Sector? ==> c.offset + 512 <= |image|)
    ensures TailBytes(image, c, k)
         == (if c.Sector? then [image[c.offset + 2 * k], image[c.offset + 2 * k + 1]] else [0, 0])
            + TailBytes(image, c, k + 1)
    ensures TailBytes(image, c, 256) == []
  {
    if c.Sector? {
      var i := c.offset + 2 * k;
      assert [image[i], image[i + 1]] + image[i + 2..c.offset + 512] == image[i..c.offset + 512];
    } else {
      assert [0, 0] + seq<Byte>(512 - 2 * (k + 1), _ => 0) == seq<Byte>(512 - 2 * k, _ => 0);
    }
  }

  lemma {:induction false} PayloadOfSector(base: Word16, image: seq<Byte>, c: Cursor, k: nat)
    requires k <= 256 && (c.Sector? ==> c.offset + 512 <= |image|)
    ensures Payload(base, SectorFrom(base, image, c, k)) == TailBytes(image, c, k)
    decreases 256 - k
  {
    hide Payload, SectorFrom, TailBytes;
    if k < 256 {
      PayloadOfSector(base, image, c, k + 1);
      PayloadOfWord(base, image, c, k);
      TailSplits(image, c, k);
    } else {
      TailSplits(image, c, 255);
      NoTail(base, image, c);
    }
  }

  lemma NoTail(base: Word16, image: seq<Byte>, c: Cursor)
    requires c.Sector? ==> c.offset + 512 <= |image|
    ensures Payload(base, SectorFrom(base, image, c, 256)) == []
  {
    UnfoldSector(base, image, c, 256);
  }

  lemma PayloadOfWord(base: Word16, image: seq<Byte>, c: Cursor, k: nat)
    requires k < 256 && (c.Sector? ==> c.offset + 512 <= |image|)
    ensures Payload(base, SectorFrom(base, image, c, k))
         == (if c.Sector? then [image[c.offset + 2 * k], image[c.offset + 2 * k + 1]] else [0, 0])
            + Payload(base, SectorFrom(base, image, c, k + 1))
  {
    hide SectorFrom;
    UnfoldSector(base, image, c, k);
    var w := WordAt(image, c, k);
    var rest := SectorFrom(base, image, c, k + 1);
    assert ([Wr((base + 255) % 0x1_0000, w)] + rest)[1..] == rest;
    if c.Sector? {
      TwoHalves(image[c.offset + 2 * k], image[c.offset + 2 * k + 1]);
    }
  }

  lemma TwoHalves(lo: Byte, hi: Byte)
    ensures Word(lo, hi) % 0x100 == lo && Word(lo, hi) / 0x100 == hi
  {
  }

  lemma AfterSectorIs(r: Regs, v: Drive)
    requires Geometry(v) && 0 < r.sectorCount
    ensures var s := AfterSector(r, v);
            && GetLba(s, v) == Onward(GetLba(r, v), 1, Span(r)) && Span(s) == Span(r)
            && s.sectorCount == r.sectorCount - 1
            && (Has(s.status, END) <==> s.sectorCount == 0) && Has(s.status, DRQ)
  {
    DataReady();
    AdvanceIsNext(r, v);
    hide Or, Has, Advance;
    SameLba(Advance(r, v), AfterSector(r, v), v);
  }

  lemma SameLba(r: Regs, s: Regs, v: Drive)
    requires s.lba == r.lba && s.cylinder == r.cylinder && s.head == r.head && s.sector == r.sector
    ensures GetLba(s, v) == GetLba(r, v) && Span(s) == Span(r)
  {
  }

  lemma OneSector(base: Word16, image: seq<Byte>, v: Drive, r: Regs, later: seq<Op>)
    requires Geometry(v) && 0 < r.sectorCount
    ensures var sent := SectorFrom(base, image, LocateIn(image, GetLba(r, v)), 0)
                        + (BlockFrom(base, Block(AfterSector(r, v), false), 0) + later);
            Payload(base, sent) == SectorBytes(image, GetLba(r, v)) + Payload(base, later)
  {
    hide *;
    var lba := GetLba(r, v);
    var c := LocateIn(image, lba);
    var block := BlockFrom(base, Block(AfterSector(r, v), false), 0);
    PayloadConcat(base, SectorFrom(base, image, c, 0), block + later);
    PayloadConcat(base, block, later);
    PayloadOfBlock(base, Block(AfterSector(r, v), false), 0);
    SectorPayload(base, image, lba);
  }

  lemma SectorPayload(base: Word16, image: seq<Byte>, lba: Word32)
    ensures Payload(base, SectorFrom(base, image, LocateIn(image, lba), 0)) == SectorBytes(image, lba)
  {
    hide Payload, SectorFrom;
    PayloadOfSector(base, image, LocateIn(image, lba), 0);
  }

  /** A read's data are the sectors from its address on, in order. */
  lemma {:induction false} ReadSends(base: Word16, image: seq<Byte>, v: Drive, r: Regs)
    requires Geometry(v)
    ensures Payload(base, ReadOps(base, image, v, r)) == SectorsFrom(image, GetLba(r, v), Span(r), r.sectorCount)
    decreases r.sectorCount
  {
    if r.sectorCount > 0 {
      AfterSectorIs(r, v);
      ReadSends(base, image, v, AfterSector(r, v));
      ReadSendsOne(base, image, v, r);
    }
  }

  lemma ReadSendsOne(base: Word16, image: seq<Byte>, v: Drive, r: Regs)
    requires Geometry(v) && 0 < r.sectorCount
    requires var after := AfterSector(r, v);
             && after.sectorCount == r.sectorCount - 1
             && Payload(base, ReadOps(base, image, v, after)) == SectorsFrom(image, GetLba(after, v),
                   Span(after), after.sectorCount)
    ensures Payload(base, ReadOps(base, image, v, r)) == SectorsFrom(image, GetLba(r, v), Span(r), r.sectorCount)
  {
    hide *;
    AfterSectorIs(r, v);
    var after := AfterSector(r, v);
    OneSector(base, image, v, r, ReadOps(base, image, v, after));
    UnfoldRead(base, image, v, r);
    UnfoldSectors(image, GetLba(r, v), Span(r), r.sectorCount);
  }

  lemma UnfoldRead(base: Word16, image: seq<Byte>, v: Drive, r: Regs)
    requires Geometry(v) && 0 < r.sectorCount
    ensures ReadOps(base, image, v, r)
         == SectorFrom(base, image, LocateIn(image, GetLba(r, v)), 0)
            + (BlockFrom(base, Block(AfterSector(r, v), false), 0) + ReadOps(base, image, v, AfterSector(r, v)))
  {
  }

  lemma UnfoldSectors(image: seq<Byte>, lba: nat, span: nat, n: nat)
    requires span > 0 && n > 0
    ensures SectorsFrom(image, lba, span, n) == SectorBytes(image, lba) + SectorsFrom(image, Onward(lba, 1,
          span), span, n - 1)
  {
  }

  function AfterSectors(r: Regs, v: Drive, k: nat): Regs
    requires Geometry(v)
    decreases k
  {
    if k == 0 then r else AfterSectors(AfterSector(r, v), v, k - 1)
  }

  /** The register block after sector k: it stands at the next address with
      the sectors left, and only the last one is marked END. */
  lemma {:induction false} BlockAfterSector(base: Word16, image: seq<Byte>, v: Drive, r: Regs, k: nat)
    requires Geometry(v) && k < r.sectorCount
    ensures |ReadOps(base, image, v, r)| == 262 * r.sectorCount
    ensures var s := AfterSectors(r, v, k + 1);
            && ReadOps(base, image, v, r)[262 * k + 256..262 * k + 262] == BlockFrom(base, Block(s, false), 0)
            && GetLba(s, v) == Onward(GetLba(r, v), k + 1, Span(r))
            && s.sectorCount == r.sectorCount - 1 - k
            && (Has(s.status, END) <==> k == r.sectorCount - 1)
    decreases r.sectorCount
  {
    hide GetLba, Or, Has, Span, Onward, SectorFrom, BlockFrom, LocateIn, Block;
    AfterSectorIs(r, v);
    var after := AfterSector(r, v);
    hide AfterSector;
    var sector := SectorFrom(base, image, LocateIn(image, GetLba(r, v)), 0);
    var block, later := BlockFrom(base, Block(after, false), 0), ReadOps(base, image, v, after);
    var all := ReadOps(base, image, v, r);
    assert all == sector + (block + later);
    if after.sectorCount == 0 {
      assert later == [];
      hide ReadOps;
    } else if k == 0 {
      BlockAfterSector(base, image, v, after, 0);
      hide ReadOps;
    } else {
      BlockAfterSector(base, image, v, after, k - 1);
      OnwardAdds(GetLba(r, v), 1, k, Span(r));
      hide ReadOps;
    }
  }

  /** On the bus: the last word of the block after sector k, in register 5,
      carries END exactly when it is the last sector's. */
  lemma EndMarksLastBlock(base: Word16, image: seq<Byte>, v: Drive, r: Regs, k: nat)
    requires Geometry(v) && k < r.sectorCount
    ensures 262 * k + 262 <= |ReadOps(base, image, v, r)|
    ensures var op := ReadOps(base, image, v, r)[262 * k + 261];
            && op.Wr? && op.addr == (base + 5) % 0x1_0000
            && (Has(op.data / 0x100, END) <==> k == r.sectorCount - 1)
  {
    hide *;
    BlockAfterSector(base, image, v, r, k);
    var s, ops := AfterSectors(r, v, k + 1), ReadOps(base, image, v, r);
    var b := Block(s, false);
    assert ops[262 * k + 256..262 * k + 262][5] == ops[262 * k + 261];
    BlockWord(base, b, 0, 5);
    HighByte(b[10], b[11]);
    StatusByte(s);
  }

  lemma HighByte(lo: Byte, hi: Byte)
    ensures Word(lo, hi) / 0x100 == hi
  {
  }

  lemma StatusByte(r: Regs)
    ensures Block(r, false)[11] == r.status
  {
    hide Or;
  }

  // ---- The command ----

  /** The registers a disk command starts from. */
  function Requested(d: Dev, t: Taskfile): Regs
    requires Whole(t)
  {
    Masked(Loaded(d.regs, t), Command(t))
  }

  function LbaAddress(sector: int, cylinder: int, head: int): int {
    sector + 0x100 * cylinder + 0x100_0000 * head
  }

  function ChsAddress(v: Drive, cylinder: int, head: int, sector: int): int {
    (cylinder * v.heads + head) * v.spt + sector - 1
  }

  /** The address a command names: bits 0 to 7 in the sector number, 8 to 23 in
      the cylinder and 24 to 27 in the head, or cylinder, head and sector. */
  lemma RequestedAddress(d: Dev, t: Taskfile)
    requires Whole(t)
    ensures var r, head := Requested(d, t), Lo(t.w[5]) % 0x10;
            GetLba(r, d.drive)
            == if Lo(t.w[5]) / 0x40 % 2 == 1 then LbaAddress(Hi(t.w[1]), t.w[2], head)
               else ChsAddress(d.drive, t.w[2], head, Hi(t.w[1])) % 0x1_0000_0000
  {
    hide *;
    RequestedRegs(d, t);
    AddressOf(Requested(d, t), d.drive);
  }

  lemma AddressOf(r: Regs, v: Drive)
    ensures r.lba == 0 ==> GetLba(r, v) == ChsAddress(v, r.cylinder, r.head, r.sector) % 0x1_0000_0000
    ensures r.lba != 0 && r.sector < 0x100 && r.cylinder < 0x1_0000 && r.head < 0x10 ==>
      GetLba(r, v) == LbaAddress(r.sector, r.cylinder, r.head)
  {
  }

  lemma RequestedRegs(d: Dev, t: Taskfile)
    requires Whole(t)
    ensures var r := Requested(d, t);
            && r.sector == Hi(t.w[1]) && r.cylinder == t.w[2] && r.head == Lo(t.w[5]) % 0x10
            && r.lba == Lo(t.w[5]) / 0x40 % 2
            && r.sector < 0x100 && r.cylinder < 0x1_0000 && r.head < 0x10 && 0 <= r.lba < 2
  {
    PairLow(Hi(t.w[1]), Hi(t.w[3]));
    LowHalf(t.w[2], t.w[4]);
    hide Pair, Hi, Lo;
  }

  lemma LowHalf(lo: Word16, hi: Word16)
    ensures Pair(lo, hi, 0x1_0000) % 0x1_0000 == lo
  {
  }

  /** A command for a disk that is there. */
  predicate ForDisk(d: Dev, t: Taskfile)
    requires Whole(t)
  {
    d.drive.present && !d.cdrom && Lo(t.w[5]) / 0x10 % 2 == 0
  }

  lemma DiskHandled(d: Dev, t: Taskfile)
    requires Ready(d) && Whole(t) && ForDisk(d, t) && Valid(Decoded(d, t))
    ensures Decoded(d, t).phase.DoCmd? && HandleCommand(Decoded(d, t)) == DiskCommand(Decoded(d, t))
  {
    hide DiskCommand, Valid;
  }

  lemma MaskedCount(r: Regs, t: Taskfile)
    requires Whole(t) && Command(t) in {0x20, 0x21, 0x30, 0x31}
    ensures Masked(Loaded(r, t), Command(t)).sectorCount == if Lo(t.w[1]) == 0 then 256 else Lo(t.w[1])
  {
    PairLow(Lo(t.w[1]), Lo(t.w[3]));
    hide Pair, Lo;
  }

  lemma ReadStarts(d: Dev, t: Taskfile)
    requires Ready(d) && Whole(t) && ForDisk(d, t) && (Command(t) == 0x20 || Command(t) == 0x21)
    requires Valid(Decoded(d, t))
    ensures var s := HandleCommand(Decoded(d, t));
            && InRead(s) && Same(d, s) && s.phase.Read? && s.regs == Requested(d, t)
            && s.regs.sectorCount == if Lo(t.w[1]) == 0 then 256 else Lo(t.w[1])
  {
    DiskHandled(d, t);
    MaskedCount(d.regs, t);
    hide Or, Has, HandleCommand, Masked, Loaded, Valid;
  }

  lemma {:induction false} NoPayload(base: Word16, k: nat)
    requires k <= 6
    ensures Payload(base, Fetches(base, k)) == []
    decreases 6 - k
  {
    if k < 6 {
      NoPayload(base, k + 1);
    }
  }

  lemma WorkOfRead(d: Dev)
    requires InRead(d) && d.phase.Read?
    ensures Work(d) == 267 * d.regs.sectorCount
    ensures Rest(d) == ReadOps(d.base, d.image, d.drive, d.regs)
  {
  }

  lemma NothingLeft(d: Dev)
    requires InRead(d) && d.phase.Idle?
    ensures Rest(d) == []
  {
  }

  lemma ReadyGeometry(d: Dev)
    requires Ready(d)
    ensures Valid(d) && Geometry(d.drive)
  {
  }

  lemma SameParts(d: Dev, e: Dev)
    requires Same(d, e)
    ensures e.base == d.base && e.image == d.image && e.drive == d.drive
  {
  }

  lemma InReadIsDisk(d: Dev)
    requires InRead(d)
    ensures !d.cdrom
  {
  }

  /** READ SECTORS as a whole: at any time the bus has seen a beginning of the
      command's traffic; the command is over once the host has let it take
      267 steps a sector; and then its data are the sectors asked for, in
      order, and nothing of the disk has changed. */
  lemma ReadCommand(d: Dev, opening: seq<Inp>, t: Taskfile, inputs: seq<Inp>)
    requires Ready(d) && Whole(t) && ForDisk(d, t) && (Command(t) == 0x20 || Command(t) == 0x21)
    requires Handover(opening, t) && Patient(inputs)
    ensures Valid(Decoded(d, t)) && Geometry(d.drive)
    ensures var r, run := Requested(d, t), Run(d, opening + inputs);
            var traffic := Fetches(d.base, 0) + ReadOps(d.base, d.image, d.drive, r);
            && run.ops <= traffic && run.d.image == d.image
            && run.d.drive == d.drive && run.d.base == d.base && !run.d.cdrom
            && r.sectorCount == (if Lo(t.w[1]) == 0 then 256 else Lo(t.w[1]))
            && (run.d.phase.Idle? <==> Useful(HandleCommand(Decoded(d, t)), inputs) == 267 * r.sectorCount)
            && (run.d.phase.Idle? ==>
                  && run.ops == traffic
                  && Payload(d.base, run.ops) == SectorsFrom(d.image, GetLba(r, d.drive), Span(r), r.sectorCount))
  {
    hide *;
    ReadyGeometry(d);
    DecodedPhase(d, t);
    CommandArrives(d, opening, t);
    RunConcat(d, opening, inputs);
    ReadStarts(d, t);
    var s, r := HandleCommand(Decoded(d, t)), Requested(d, t);
    ReadRuns(s, inputs);
    WorkOfRead(s);
    var run := Run(s, inputs);
    SameParts(d, s);
    SameParts(s, run.d);
    InReadIsDisk(run.d);
    if run.d.phase.Idle? {
      NothingLeft(run.d);
      assert run.ops == ReadOps(d.base, d.image, d.drive, r);
      NoPayload(d.base, 0);
      PayloadConcat(d.base, Fetches(d.base, 0), run.ops);
      ReadSends(d.base, d.image, d.drive, r);
    }
  }
}
