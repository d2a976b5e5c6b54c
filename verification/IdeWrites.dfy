/** WRITE SECTORS over whole runs: what the disk holds when it is over, and
    that a read gives it back. */
module IdeWrites {
  import opened Platform
  import opened Ide
  import opened IdeAddresses
  import opened IdeRuns
  import R = IdeReads

  const ACCEPTED: Byte := 0x48         // RDY | DRQ
  const FINISHED: Byte := 0x54         // RDY | IRQ | DSC

  // ---- The image ----

  /** The image when words arrive from word k of a sector on: each goes to
      its place, or nowhere past the image, and the next sector follows. */
  function Land(image: seq<Byte>, lba: Word32, span: nat, k: nat, ws: seq<Word16>): (r: seq<Byte>)
    requires 0 < span <= 0x1_0000_0000 && k < 256
    ensures |r| == |image|
    decreases ws
  {
    if ws == [] then image
    else
      var after := PutWord(image, R.LocateIn(image, lba), k, ws[0]);
      if k == 255 then Land(after, Onward(lba, 1, span), span, 0, ws[1..])
      else Land(after, lba, span, k + 1, ws[1..])
  }

  function Flat(ws: seq<Word16>): (b: seq<Byte>)
    ensures |b| == 2 * |ws|
  {
    if ws == [] then [] else [ws[0] % 0x100, ws[0] / 0x100] + Flat(ws[1..])
  }

  // ---- Traffic ----

  function Opened(r: Regs, irq: Byte): Regs {
    r.(status := Or(ACCEPTED, irq), ioSize := 1)
  }

  function AfterSector(r: Regs, v: Drive): Regs
    requires Geometry(v)
  {
    Advance(r, v).(sectorCount := (r.sectorCount - 1) % 0x1_0000)
  }

  function DataReads(base: Word16, k: nat): (ops: seq<Op>)
    requires k <= 256
    ensures |ops| == 256 - k
    decreases 256 - k
  {
    if k == 256 then [] else [Rd((base + 255) % 0x1_0000)] + DataReads(base, k + 1)
  }

  /** What a write still sends once a sector has been opened and its words
      are in. */
  function Later(base: Word16, v: Drive, r: Regs): seq<Op>
    requires Geometry(v) && 0 < r.sectorCount
    decreases r.sectorCount, 0
  {
    var after := AfterSector(r, v);
    if after.sectorCount == 0 then BlockFrom(base, Block(after.(status := FINISHED), false), 0)
    else WriteOps(base, v, after, IRQ)
  }

  /** All that a write still sends when r.sectorCount sectors are left. */
  function WriteOps(base: Word16, v: Drive, r: Regs, irq: Byte): seq<Op>
    requires Geometry(v) && 0 < r.sectorCount
    decreases r.sectorCount, 1
  {
    var open := Opened(r, irq);
    BlockFrom(base, Block(open, false), 0) + (DataReads(base, 0) + Later(base, v, open))
  }

  // ---- One step ----

  predicate Filling(d: Dev) {
    d.regs.sectorCount > 0 && d.irqPending == IRQ && d.words == Locate(d)
  }

  /** A register block in a write: a sector opened, or the end. */
  predicate Telling(d: Dev) {
    || (d.next.WriteWaitReq? && Filling(d) && Has(d.regs.status, DRQ))
    || (d.next.Idle? && d.regs.sectorCount == 0)
  }

  /** A device in a write, or between commands. */
  ghost predicate InWrite(d: Dev) {
    && Valid(d) && !d.cdrom
    && match d.phase
       case Write => d.regs.sectorCount > 0
       case WriteRegs => d.regs.sectorCount > 0 && (d.irqPending == 0 || d.irqPending == IRQ)
       case SetRegs => Telling(d) && (d.next.Idle? ==> d.regs.status == Or(RDY, IRQ))
       case SetRegsSend =>
         Telling(d) && d.cnt <= 6 && d.buf == Block(d.regs, false) && (d.next.Idle? ==> d.regs.status == FINISHED)
       case WriteWaitReq => Filling(d)
       case WriteRecv => Filling(d)
       case Idle => true
       case _ => false
  }

  ghost function Rest(d: Dev): seq<Op>
    requires InWrite(d)
  {
    match d.phase
    case Write => WriteOps(d.base, d.drive, d.regs, 0)
    case WriteRegs => WriteOps(d.base, d.drive, d.regs, d.irqPending)
    case SetRegs =>
      if d.next.Idle? then BlockFrom(d.base, Block(d.regs.(status := FINISHED), false), 0)
      else BlockFrom(d.base, Block(d.regs, false), 0) + (DataReads(d.base, 0) + Later(d.base, d.drive, d.regs))
    case SetRegsSend =>
      if d.next.Idle? then BlockFrom(d.base, d.buf, d.cnt)
      else BlockFrom(d.base, d.buf, d.cnt) + (DataReads(d.base, 0) + Later(d.base, d.drive, d.regs))
    case WriteWaitReq => DataReads(d.base, 0) + Later(d.base, d.drive, d.regs)
    case WriteRecv => DataReads(d.base, d.cnt) + Later(d.base, d.drive, d.regs)
    case _ => []
  }

  /** The steps a write still takes, waits aside. */
  ghost function Work(d: Dev): nat
    requires InWrite(d)
  {
    var n := 267 * d.regs.sectorCount + 8;
    match d.phase
    case Write => n + 1
    case WriteRegs => n
    case SetRegs => if d.next.Idle? then 8 else n - 1
    case SetRegsSend => if d.next.Idle? then 7 - d.cnt else n - 2 - d.cnt
    case WriteWaitReq => n - 9
    case WriteRecv => n - 10 - d.cnt
    case _ => 0
  }

  /** The words it still takes. */
  ghost function Awaited(d: Dev): nat
    requires InWrite(d)
  {
    if d.phase.WriteRecv? then 256 * d.regs.sectorCount - Position(d)
    else if d.phase.Idle? then 0
    else 256 * d.regs.sectorCount
  }

  function Position(d: Dev): nat {
    if d.phase.WriteRecv? && d.cnt > 0 then d.cnt - 1 else 0
  }

  /** The word a step takes from the bus. */
  function Taken(d: Dev, i: Inp): seq<Word16> {
    if d.phase.WriteRecv? && d.cnt > 0 then [i.data] else []
  }

  /** The image when ws arrives from here on. */
  ghost function Landing(d: Dev, ws: seq<Word16>): seq<Byte>
    requires InWrite(d)
  {
    Land(d.image, GetLba(d.regs, d.drive), Span(d.regs), if d.phase.WriteRecv? then Position(d) else 0, ws)
  }

  predicate Waits(d: Dev, i: Inp) {
    d.phase.Idle? || (d.phase.WriteWaitReq? && i.request == 0)
  }

  predicate Same(d: Dev, e: Dev) {
    e.base == d.base && e.drive == d.drive && |e.image| == |d.image| && Span(e.regs) == Span(d.regs)
  }

  /** The step keeps to a write and sends the next piece of the rest. */
  ghost predicate Sends(d: Dev, i: Inp, s: Step)
    requires InWrite(d)
  {
    && InWrite(s.d) && Same(d, s.d)
    && Rest(d) == Emit(s.op) + Rest(s.d)
    && Work(d) == Work(s.d) + (if Waits(d, i) then 0 else 1)
  }

  /** And stores the word it takes. */
  ghost predicate Stores(d: Dev, i: Inp, s: Step, ws: seq<Word16>)
    requires InWrite(d) && InWrite(s.d)
  {
    && Awaited(d) == |Taken(d, i)| + Awaited(s.d)
    && Landing(d, Taken(d, i) + ws) == Landing(s.d, ws)
  }

  ghost predicate Takes(d: Dev, i: Inp, s: Step, ws: seq<Word16>)
    requires InWrite(d)
  {
    Sends(d, i, s) && Stores(d, i, s, ws)
  }

  lemma Fits(d: Dev)
    requires InWrite(d)
    ensures Valid(d) && Geometry(d.drive) && |d.buf| == 12
  {
  }

  lemma Statuses()
    ensures Or(RDY, DRQ) == ACCEPTED && Or(ACCEPTED, 0) == ACCEPTED && Or(ACCEPTED, IRQ) == 0x4C
    ensures Has(ACCEPTED, DRQ) && Has(0x4C, DRQ) && !Has(Or(RDY, IRQ), DRQ) && Or(Or(RDY, IRQ), DSC) == FINISHED
  {
  }

  lemma SameAddress(r: Regs, s: Regs, v: Drive)
    requires s.lba == r.lba && s.cylinder == r.cylinder && s.head == r.head && s.sector == r.sector
    ensures GetLba(s, v) == GetLba(r, v) && Span(s) == Span(r)
  {
  }

  lemma OpenTakes(d: Dev, i: Inp, ws: seq<Word16>)
    requires InWrite(d) && d.phase.WriteRegs?
    ensures Takes(d, i, Silent(OpenSector(d)), ws)
  {
    hide Or, Has, Advance, GetLba, Block, BlockFrom, DataReads, Later, Land, Span;
    Statuses();
    var s := OpenSector(d);
    SameAddress(d.regs, s.regs, d.drive);
    assert s.regs == Opened(d.regs, d.irqPending);
    assert [] + ws == ws;
  }

  lemma StageTakes(d: Dev, i: Inp, ws: seq<Word16>)
    requires InWrite(d) && d.phase.SetRegs?
    ensures Takes(d, i, Silent(StageRegs(d)), ws)
  {
    hide Or, Has, Advance, GetLba, Block, BlockFrom, DataReads, Later, Land, Span;
    Statuses();
    SameAddress(d.regs, StageRegs(d).regs, d.drive);
    assert [] + ws == ws;
  }

  lemma BlockTakes(d: Dev, i: Inp, ws: seq<Word16>)
    requires InWrite(d) && d.phase.SetRegsSend?
    ensures Takes(d, i, SendRegs(d), ws)
  {
    assert [] + ws == ws;
    if d.cnt == 6 {
      BlockEnds(d, i, ws);
    } else {
      BlockGoesOn(d, i, ws);
    }
  }

  lemma BlockEnds(d: Dev, i: Inp, ws: seq<Word16>)
    requires InWrite(d) && d.phase.SetRegsSend? && d.cnt == 6
    ensures Takes(d, i, SendRegs(d), ws)
  {
    hide Or, Has, Advance, GetLba, Block, DataReads, Later, Land, Span;
    assert [] + ws == ws;
    assert BlockFrom(d.base, d.buf, d.cnt) == [];
  }

  lemma BlockGoesOn(d: Dev, i: Inp, ws: seq<Word16>)
    requires InWrite(d) && d.phase.SetRegsSend? && d.cnt < 6
    ensures Takes(d, i, SendRegs(d), ws)
  {
    if d.next.Idle? {
      EndGoesOn(d, i, ws);
    } else {
      OpenGoesOn(d, i, ws);
    }
  }

  lemma EndGoesOn(d: Dev, i: Inp, ws: seq<Word16>)
    requires InWrite(d) && d.phase.SetRegsSend? && d.cnt < 6 && d.next.Idle?
    ensures Takes(d, i, SendRegs(d), ws)
  {
    hide Or, Has, Advance, GetLba, Block, BlockFrom, DataReads, Later, Land, Span;
    assert [] + ws == ws;
    UnfoldBlock(d.base, d.buf, d.cnt);
  }

  lemma OpenGoesOn(d: Dev, i: Inp, ws: seq<Word16>)
    requires InWrite(d) && d.phase.SetRegsSend? && d.cnt < 6 && d.next.WriteWaitReq?
    ensures Takes(d, i, SendRegs(d), ws)
  {
    OpenSends(d, i);
    hide Or, Has, Advance, GetLba, Block, BlockFrom, DataReads, Later, Land, Span, Rest, Work;
    assert [] + ws == ws;
  }

  lemma OpenSends(d: Dev, i: Inp)
    requires InWrite(d) && d.phase.SetRegsSend? && d.cnt < 6 && d.next.WriteWaitReq?
    ensures Sends(d, i, SendRegs(d))
  {
    hide InWrite, Valid, BlockFrom, DataReads, Later, Or, Block, Word, Rest, Work, SendRegs, Geometry;
    OpenStays(d);
    UnfoldBlock(d.base, d.buf, d.cnt);
    var s := SendRegs(d);
    OpenOwes(d);
    OpenOwes(s.d);
    R.Assoc(Emit(s.op), BlockFrom(d.base, d.buf, d.cnt + 1), DataReads(d.base, 0) + Later(d.base, d.drive, d.regs));
  }

  /** What is owed while the block before a sector goes out. */
  lemma OpenOwes(d: Dev)
    requires InWrite(d) && d.phase.SetRegsSend? && d.cnt <= 6 && d.next.WriteWaitReq? && |d.buf| == 12
    requires Geometry(d.drive) && d.regs.sectorCount > 0
    ensures Rest(d)
         == BlockFrom(d.base, d.buf, d.cnt) + (DataReads(d.base, 0) + Later(d.base, d.drive, d.regs))
    ensures Work(d) == 267 * d.regs.sectorCount + 6 - d.cnt
  {
    hide InWrite, Valid, BlockFrom, DataReads, Later, Block;
  }

  lemma OpenStays(d: Dev)
    requires InWrite(d) && d.phase.SetRegsSend? && d.cnt < 6 && d.next.WriteWaitReq?
    ensures Valid(d) && |d.buf| == 12 && Geometry(d.drive) && d.regs.sectorCount > 0
    ensures var s := SendRegs(d);
            && InWrite(s.d) && Same(d, s.d) && s.d == d.(cnt := d.cnt + 1, addr := s.d.addr)
            && s.op == Wr((d.base + d.cnt) % 0x1_0000, Word(d.buf[2 * d.cnt], d.buf[2 * d.cnt + 1]))
  {
    hide Or, Has, Advance, GetLba, Block, Span, Word;
  }

  lemma AfterSectorIs(r: Regs, v: Drive)
    requires Geometry(v) && 0 < r.sectorCount
    ensures var s := AfterSector(r, v);
            && GetLba(s, v) == Onward(GetLba(r, v), 1, Span(r)) && Span(s) == Span(r)
            && s.sectorCount == r.sectorCount - 1
  {
    AdvanceIsNext(r, v);
    SameAddress(Advance(r, v), AfterSector(r, v), v);
    hide Advance;
  }

  /** One more word asked for, and the one before it stored. */
  lemma FetchTakes(d: Dev, i: Inp, ws: seq<Word16>)
    requires InWrite(d) && d.phase.WriteRecv? && d.cnt < 256
    ensures Takes(d, i, ReceiveSector(d, i.data), ws)
  {
    if d.cnt == 0 {
      FirstFetch(d, i, ws);
    } else {
      LaterFetch(d, i, ws);
    }
  }

  lemma FetchSends(d: Dev, i: Inp)
    requires InWrite(d) && d.phase.WriteRecv? && d.cnt < 256
    ensures Sends(d, i, ReceiveSector(d, i.data))
  {
    hide InWrite, Valid, Later, BlockFrom, DataReads, Or, Block;
    FetchStays(d, i);
    UnfoldReads(d.base, d.cnt);
    R.Assoc([Rd(Port(d, 255))], DataReads(d.base, d.cnt + 1), Later(d.base, d.drive, d.regs));
  }

  lemma FetchStays(d: Dev, i: Inp)
    requires InWrite(d) && d.phase.WriteRecv? && d.cnt < 256
    ensures Geometry(d.drive) && d.regs.sectorCount > 0
    ensures var s := ReceiveSector(d, i.data);
            && InWrite(s.d) && Same(d, s.d) && s.op == Rd(Port(d, 255))
            && s.d == d.(cnt := d.cnt + 1, addr := s.d.addr, image := s.d.image)
  {
    hide Or, Has, Advance, GetLba, Block, Span, PutWord;
  }

  lemma FirstFetch(d: Dev, i: Inp, ws: seq<Word16>)
    requires InWrite(d) && d.phase.WriteRecv? && d.cnt == 0
    ensures Takes(d, i, ReceiveSector(d, i.data), ws)
  {
    FetchSends(d, i);
    hide Or, Has, Advance, GetLba, Block, Later, Span, PutWord, BlockFrom, DataReads, Land, Rest, Work;
    assert [] + ws == ws;
  }

  lemma LaterFetch(d: Dev, i: Inp, ws: seq<Word16>)
    requires InWrite(d) && d.phase.WriteRecv? && 0 < d.cnt < 256
    ensures Takes(d, i, ReceiveSector(d, i.data), ws)
  {
    hide InWrite, Valid, GetLba, Span, PutWord, Land, Rest, Work, Stores;
    FetchSends(d, i);
    FetchStores(d, i, ws);
  }

  lemma FetchStores(d: Dev, i: Inp, ws: seq<Word16>)
    requires InWrite(d) && d.phase.WriteRecv? && 0 < d.cnt < 256 && InWrite(ReceiveSector(d, i.data).d)
    ensures Stores(d, i, ReceiveSector(d, i.data), ws)
  {
    hide Or, Has, Advance, GetLba, Block, Later, Span, PutWord, BlockFrom, DataReads, Land, InWrite;
    FetchParts(d, i);
    UnfoldFetch(d, i, ws);
  }

  lemma FetchParts(d: Dev, i: Inp)
    requires InWrite(d) && d.phase.WriteRecv? && 0 < d.cnt < 256
    ensures Valid(d) && d.words == R.LocateIn(d.image, GetLba(d.regs, d.drive))
    ensures var e := ReceiveSector(d, i.data).d;
            && e.image == PutWord(d.image, d.words, d.cnt - 1, i.data) && e.cnt == d.cnt + 1 && e.phase.WriteRecv?
            && e.regs == d.regs && e.drive == d.drive
  {
    hide Or, Has, Advance, GetLba, Span, PutWord;
  }

  lemma UnfoldReads(base: Word16, k: nat)
    requires k < 256
    ensures DataReads(base, k) == [Rd((base + 255) % 0x1_0000)] + DataReads(base, k + 1)
  {
  }

  lemma UnfoldFetch(d: Dev, i: Inp, ws: seq<Word16>)
    requires Valid(d) && 0 < d.cnt < 256
    ensures Land(d.image, GetLba(d.regs, d.drive), Span(d.regs), d.cnt - 1, [i.data] + ws)
         == Land(PutWord(d.image, R.LocateIn(d.image, GetLba(d.regs, d.drive)), d.cnt - 1, i.data),
                 GetLba(d.regs, d.drive), Span(d.regs), d.cnt, ws)
  {
    hide GetLba, PutWord, Span;
    assert ([i.data] + ws)[1..] == ws;
  }

  /** The last word stored, and on to the next sector or to the end. */
  lemma CloseTakes(d: Dev, i: Inp, ws: seq<Word16>)
    requires InWrite(d) && d.phase.WriteRecv? && d.cnt == 256
    ensures Takes(d, i, ReceiveSector(d, i.data), ws)
  {
    hide Or, Has, Advance, GetLba, Block, Span, PutWord, Onward, DataReads, Later, Land, BlockFrom, WriteOps;
    Statuses();
    AfterSectorIs(d.regs, d.drive);
    var a := AfterSector(d.regs, d.drive);
    SameAddress(a, a.(status := Or(RDY, IRQ)), d.drive);
    UnfoldClose(d, i, ws);
    if a.sectorCount == 0 {
      LastTakes(d, i, ws);
    } else {
      NextTakes(d, i, ws);
    }
  }

  lemma LastTakes(d: Dev, i: Inp, ws: seq<Word16>)
    requires InWrite(d) && d.phase.WriteRecv? && d.cnt == 256 && AfterSector(d.regs, d.drive).sectorCount == 0
    ensures Takes(d, i, ReceiveSector(d, i.data), ws)
  {
    hide Or, Has, Advance, GetLba, Block, Span, PutWord, Onward, DataReads, Later, Land, BlockFrom, WriteOps;
    Statuses();
    AfterSectorIs(d.regs, d.drive);
    var a := AfterSector(d.regs, d.drive);
    SameAddress(a, a.(status := Or(RDY, IRQ)), d.drive);
    UnfoldClose(d, i, ws);
    var s := ReceiveSector(d, i.data);
    assert s.d.regs == a.(status := Or(RDY, IRQ));
  }

  lemma NextTakes(d: Dev, i: Inp, ws: seq<Word16>)
    requires InWrite(d) && d.phase.WriteRecv? && d.cnt == 256 && AfterSector(d.regs, d.drive).sectorCount > 0
    ensures Takes(d, i, ReceiveSector(d, i.data), ws)
  {
    hide Or, Has, Advance, GetLba, Block, Span, PutWord, Onward, DataReads, Later, Land, BlockFrom, WriteOps;
    AfterSectorIs(d.regs, d.drive);
    UnfoldClose(d, i, ws);
    assert ReceiveSector(d, i.data).d.regs == AfterSector(d.regs, d.drive);
  }

  function AfterOpened(base: Word16, v: Drive, after: Regs): seq<Op>
    requires Geometry(v)
  {
    if after.sectorCount == 0 then BlockFrom(base, Block(after.(status := FINISHED), false), 0)
    else WriteOps(base, v, after, IRQ)
  }

  lemma UnfoldClose(d: Dev, i: Inp, ws: seq<Word16>)
    requires Valid(d) && d.phase.WriteRecv? && d.regs.sectorCount > 0
    ensures DataReads(d.base, 256) == []
    ensures Land(d.image, GetLba(d.regs, d.drive), Span(d.regs), 255, [i.data] + ws)
         == Land(PutWord(d.image, R.LocateIn(d.image, GetLba(d.regs, d.drive)), 255, i.data),
                 Onward(GetLba(d.regs, d.drive), 1, Span(d.regs)), Span(d.regs), 0, ws)
    ensures Later(d.base, d.drive, d.regs) == AfterOpened(d.base, d.drive, AfterSector(d.regs, d.drive))
  {
    hide Advance, GetLba, Block, PutWord, Onward, BlockFrom, WriteOps;
    assert ([i.data] + ws)[1..] == ws;
  }

  lemma WaitTakes(d: Dev, i: Inp, ws: seq<Word16>)
    requires InWrite(d) && (d.phase.Write? || d.phase.Idle? || d.phase.WriteWaitReq?)
    requires i.request == 0 || i.request == 5
    ensures Takes(d, i, Next(d, i), ws)
  {
    hide Or, Has, Advance, GetLba, Block, WriteOps, Later, DataReads, Land, Span;
    assert [] + ws == ws;
  }

  lemma NextInWrite(d: Dev, i: Inp)
    requires Valid(d)
    ensures d.phase.WriteRegs? ==> Next(d, i) == Silent(OpenSector(d))
    ensures d.phase.WriteRecv? ==> Next(d, i) == ReceiveSector(d, i.data)
    ensures d.phase.SetRegs? ==> Next(d, i) == Silent(StageRegs(d))
    ensures d.phase.SetRegsSend? ==> Next(d, i) == SendRegs(d)
  {
  }

  lemma WriteTakesStep(d: Dev, i: Inp, ws: seq<Word16>)
    requires InWrite(d) && (i.request == 0 || i.request == 5)
    ensures Takes(d, i, Next(d, i), ws)
  {
    assert d.phase.WriteRecv? ==> d.cnt <= 256;
    hide Next, Takes, Valid, OpenSector, ReceiveSector, StageRegs, SendRegs, Has, Or;
    NextInWrite(d, i);
    match d.phase
    case WriteRegs => OpenTakes(d, i, ws);
    case WriteRecv =>
      if d.cnt < 256 {
        FetchTakes(d, i, ws);
      } else {
        CloseTakes(d, i, ws);
      }
    case SetRegs => StageTakes(d, i, ws);
    case SetRegsSend => BlockTakes(d, i, ws);
    case _ => WaitTakes(d, i, ws);
  }

  // ---- Whole runs ----

  /** The steps of a run that do not just wait. */
  ghost function Useful(d: Dev, inputs: seq<Inp>): (n: nat)
    requires Valid(d)
    decreases inputs
  {
    if inputs == [] then 0
    else (if Waits(d, inputs[0]) then 0 else 1) + Useful(Next(d, inputs[0]).d, inputs[1..])
  }

  /** The words a run takes from the bus. */
  ghost function Words(d: Dev, inputs: seq<Inp>): seq<Word16>
    requires Valid(d)
    decreases inputs
  {
    if inputs == [] then [] else Taken(d, inputs[0]) + Words(Next(d, inputs[0]).d, inputs[1..])
  }

  /** A run keeps four accounts: of what is sent, of the work, of the words,
      and of the image those words make. */
  ghost predicate Accounts(d: Dev, inputs: seq<Inp>, ws: seq<Word16>)
    requires InWrite(d)
  {
    var r := Run(d, inputs);
    && InWrite(r.d) && Same(d, r.d)
    && Rest(d) == r.ops + Rest(r.d)
    && Work(d) == Work(r.d) + Useful(d, inputs)
    && Awaited(d) == |Words(d, inputs)| + Awaited(r.d)
    && Landing(d, Words(d, inputs) + ws) == Landing(r.d, ws)
  }

  lemma NoInputs(d: Dev, ws: seq<Word16>)
    requires InWrite(d)
    ensures Accounts(d, [], ws)
  {
    hide Valid, Next, Landing, Rest, Work, Awaited;
    assert [] + ws == ws;
  }

  lemma AccountsAdd(d: Dev, inputs: seq<Inp>, ws: seq<Word16>)
    requires InWrite(d) && inputs != []
    requires Takes(d, inputs[0], Next(d, inputs[0]), Words(Next(d, inputs[0]).d, inputs[1..]) + ws)
    requires Accounts(Next(d, inputs[0]).d, inputs[1..], ws)
    ensures Accounts(d, inputs, ws)
  {
    hide Next, InWrite, Valid, Landing, Rest, Work, Awaited;
    InWriteValid(d);
    var s := Next(d, inputs[0]);
    var r := Run(s.d, inputs[1..]);
    R.Assoc(Emit(s.op), r.ops, Rest(r.d));
    R.Assoc(Taken(d, inputs[0]), Words(s.d, inputs[1..]), ws);
  }

  lemma {:induction false} WriteRuns(d: Dev, inputs: seq<Inp>, ws: seq<Word16>)
    requires InWrite(d) && Patient(inputs)
    ensures Accounts(d, inputs, ws)
    decreases inputs
  {
    if inputs == [] {
      NoInputs(d, ws);
    } else {
      hide Next, Takes, Accounts, InWrite, Valid;
      InWriteValid(d);
      WriteTakesStep(d, inputs[0], []);
      TakesKeeps(d, inputs[0], Next(d, inputs[0]), []);
      var s := Next(d, inputs[0]);
      WriteRuns(s.d, inputs[1..], ws);
      WriteTakesStep(d, inputs[0], Words(s.d, inputs[1..]) + ws);
      AccountsAdd(d, inputs, ws);
    }
  }

  lemma InWriteValid(d: Dev)
    requires InWrite(d)
    ensures Valid(d) && !d.cdrom
  {
  }

  lemma TakesKeeps(d: Dev, i: Inp, s: Step, ws: seq<Word16>)
    requires InWrite(d) && Takes(d, i, s, ws)
    ensures InWrite(s.d) && Valid(s.d)
  {
  }

  // ---- What is stored ----

  lemma PutInImage(image: seq<Byte>, lba: Word32, k: nat, w: Word16)
    requires k < 256 && (lba + 1) * 512 <= |image|
    ensures PutWord(image, R.LocateIn(image, lba), k, w)
         == image[lba * 512 + 2 * k := w % 0x100][lba * 512 + 2 * k + 1 := w / 0x100]
  {
  }

  /** What follows once word k of a sector has been stored. */
  function LandTail(after: seq<Byte>, lba: Word32, span: nat, k: nat, rest: seq<Word16>): seq<Byte>
    requires 0 < span <= 0x1_0000_0000 && k < 256
  {
    if k == 255 then Land(after, Onward(lba, 1, span), span, 0, rest) else Land(after, lba, span, k + 1, rest)
  }

  lemma UnfoldLand(image: seq<Byte>, lba: Word32, span: nat, k: nat, ws: seq<Word16>)
    requires 0 < span <= 0x1_0000_0000 && k < 256 && ws != []
    ensures Land(image, lba, span, k, ws)
         == LandTail(PutWord(image, R.LocateIn(image, lba), k, ws[0]), lba, span, k, ws[1..])
    ensures Flat(ws) == [ws[0] % 0x100, ws[0] / 0x100] + Flat(ws[1..])
  {
  }

  lemma NoWords(image: seq<Byte>, lba: Word32, span: nat, k: nat, p: nat)
    requires 0 < span <= 0x1_0000_0000 && k < 256 && p <= |image|
    ensures Land(image, lba, span, k, []) == image && Flat([]) == []
    ensures image[..p] + [] + image[p..] == image
  {
  }

  /** Words that stay in the image are stored as one stretch of it, and
      nothing else changes. */
  lemma {:induction false} LandInImage(image: seq<Byte>, lba: Word32, span: nat, k: nat, ws: seq<Word16>, end: nat)
    requires 0 < span <= 0x1_0000_0000 && k < 256
    requires lba < end <= span && end * 512 <= |image|
    requires lba * 512 + 2 * k + 2 * |ws| <= end * 512
    ensures var p := lba * 512 + 2 * k;
            Land(image, lba, span, k, ws) == image[..p] + Flat(ws) + image[p + 2 * |ws|..]
    decreases ws, 1
  {
    hide *;
    var p := lba * 512 + 2 * k;
    if ws == [] {
      NoWords(image, lba, span, k, p);
    } else {
      var after := PutWord(image, R.LocateIn(image, lba), k, ws[0]);
      UnfoldLand(image, lba, span, k, ws);
      PutInImage(image, lba, k, ws[0]);
      LandTailInImage(after, lba, span, k, ws[1..], end);
      Stretch(image, after, p, ws[0] % 0x100, ws[0] / 0x100, Flat(ws[1..]), p + 2 * |ws|);
    }
  }

  lemma {:induction false} LandTailInImage(after: seq<Byte>, lba: Word32, span: nat, k: nat, rest: seq<Word16>,
        end: nat)
    requires 0 < span <= 0x1_0000_0000 && k < 256
    requires lba < end <= span && end * 512 <= |after|
    requires lba * 512 + 2 * k + 2 + 2 * |rest| <= end * 512
    ensures var p := lba * 512 + 2 * k + 2;
            LandTail(after, lba, span, k, rest) == after[..p] + Flat(rest) + after[p + 2 * |rest|..]
    decreases rest, 2
  {
    hide Land, Flat, Onward;
    var p := lba * 512 + 2 * k + 2;
    assert p + 2 * |rest| <= |after|;
    if k < 255 {
      assert p == lba * 512 + 2 * (k + 1);
      LandInImage(after, lba, span, k + 1, rest, end);
    } else if lba + 1 < end {
      assert p == (lba + 1) * 512;
      Following(lba, span);
      LandInImage(after, lba + 1, span, 0, rest, end);
    } else {
      assert p == end * 512 && rest == [];
      NoWords(after, Onward(lba, 1, span), span, 0, p);
    }
  }

  lemma Following(lba: nat, span: nat)
    requires lba + 1 < span
    ensures Onward(lba, 1, span) == lba + 1
  {
    Small(lba + 1, span);
  }

  lemma Stretch<T>(image: seq<T>, after: seq<T>, p: nat, a: T, b: T, f: seq<T>, q: nat)
    requires p + 2 <= q <= |image| && after == image[p := a][p + 1 := b]
    ensures after[..p + 2] + f + after[q..] == image[..p] + ([a, b] + f) + image[q..]
  {
    assert after[..p + 2] == image[..p] + [a, b];
    assert after[q..] == image[q..];
    assert image[..p] + [a, b] + f == image[..p] + ([a, b] + f);
  }

  /** The address of a command's sector j: the first is taken as it comes. */
  function SectorAt(lba: nat, j: nat, span: nat): nat
    requires span > 0
  {
    if j == 0 then lba else Onward(lba, j, span)
  }

  lemma SectorsGoOn(lba: nat, j: nat, span: nat)
    requires span > 0
    ensures SectorAt(Onward(lba, 1, span), j, span) == SectorAt(lba, j + 1, span)
  {
    OnwardAdds(lba, 1, j, span);
  }

  /** A byte of a sector the write does not name never changes, in the image's
      range or not. */
  lemma {:induction false} LandElsewhere(image: seq<Byte>, lba: Word32, span: nat, k: nat, ws: seq<Word16>,
        n: nat, x: nat)
    requires 0 < span <= 0x1_0000_0000 && k < 256
    requires k + |ws| <= 256 * n && x < |image|
    requires forall j :: 0 <= j < n ==> SectorAt(lba, j, span) != x / 512
    ensures Land(image, lba, span, k, ws)[x] == image[x]
    decreases ws
  {
    if ws != [] {
      assert SectorAt(lba, 0, span) == lba;
      var after := PutWord(image, R.LocateIn(image, lba), k, ws[0]);
      assert after[x] == image[x] by {
        assert lba * 512 + 2 * k + 1 < (lba + 1) * 512;
      }
      if k == 255 {
        forall j | 0 <= j < n - 1
          ensures SectorAt(Onward(lba, 1, span), j, span) != x / 512
        {
          SectorsGoOn(lba, j, span);
        }
        LandElsewhere(after, Onward(lba, 1, span), span, 0, ws[1..], n - 1, x);
      } else {
        LandElsewhere(after, lba, span, k + 1, ws[1..], n, x);
      }
    }
  }

  /** Sectors written are the sectors read. */
  lemma ReadsBack(image: seq<Byte>, lba: Word32, span: nat, n: nat, ws: seq<Word16>)
    requires 0 < span <= 0x1_0000_0000 && n > 0 && |ws| == 256 * n
    requires lba + n <= span && (lba + n) * 512 <= |image|
    ensures Land(image, lba, span, 0, ws) == image[..lba * 512] + Flat(ws) + image[(lba + n) * 512..]
    ensures R.SectorsFrom(Land(image, lba, span, 0, ws), lba, span, n) == Flat(ws)
  {
    hide Land, Flat;
    LandInImage(image, lba, span, 0, ws, lba + n);
    R.SectorsInImage(Land(image, lba, span, 0, ws), lba, span, n);
  }

  // ---- The command ----

  lemma WriteStarts(d: Dev, t: Taskfile)
    requires Ready(d) && Whole(t) && R.ForDisk(d, t) && (Command(t) == 0x30 || Command(t) == 0x31)
    requires Valid(Decoded(d, t))
    ensures var s, r := HandleCommand(Decoded(d, t)), R.Requested(d, t);
            && InWrite(s) && s.base == d.base && s.drive == d.drive && s.image == d.image && s.regs == r
            && s.regs.sectorCount == (if Lo(t.w[1]) == 0 then 256 else Lo(t.w[1]))
            && Rest(s) == WriteOps(d.base, d.drive, r, 0)
            && Work(s) == 267 * r.sectorCount + 9
            && Awaited(s) == 256 * r.sectorCount
    ensures forall ws :: Landing(HandleCommand(Decoded(d, t)), ws)
                      == Land(d.image, GetLba(R.Requested(d, t), d.drive), Span(R.Requested(d, t)), 0, ws)
  {
    hide Or, Has, Land, WriteOps, GetLba, Masked, Loaded, Span, HandleCommand, Decoded;
    WriteTaken(d, t);
    R.MaskedCount(d.regs, t);
  }

  lemma WriteTaken(d: Dev, t: Taskfile)
    requires Ready(d) && Whole(t) && R.ForDisk(d, t) && (Command(t) == 0x30 || Command(t) == 0x31)
    requires Valid(Decoded(d, t))
    ensures var s := HandleCommand(Decoded(d, t));
            && Valid(s) && s.phase.Write? && !s.cdrom && s.base == d.base && s.drive == d.drive && s.image == d.image
            && s.regs == R.Requested(d, t) == Masked(Loaded(d.regs, t), Command(t))
  {
    hide Or, Has, Masked, Loaded, HandleCommand;
    R.DiskHandled(d, t);
    hide Valid;
  }

  lemma WriteOver(d: Dev)
    requires InWrite(d)
    ensures d.phase.Idle? <==> Work(d) == 0
    ensures d.phase.Idle? ==> Rest(d) == [] && Awaited(d) == 0
    ensures Landing(d, []) == d.image
  {
    hide GetLba, Span, Block, BlockFrom, DataReads, Later, WriteOps;
  }

  lemma AccountsAre(d: Dev, inputs: seq<Inp>, ws: seq<Word16>)
    requires InWrite(d) && Accounts(d, inputs, ws)
    ensures var r := Run(d, inputs);
            && InWrite(r.d) && !r.d.cdrom && r.d.drive == d.drive && r.d.base == d.base
            && Rest(d) == r.ops + Rest(r.d)
            && Work(d) == Work(r.d) + Useful(d, inputs)
            && Awaited(d) == |Words(d, inputs)| + Awaited(r.d)
            && Landing(d, Words(d, inputs) + ws) == Landing(r.d, ws)
  {
    hide Landing, Rest, Work, Awaited, InWrite, Valid, Next;
    InWriteValid(d);
    InWriteValid(Run(d, inputs).d);
  }

  /** WRITE SECTORS as a whole: at any time the bus has seen a beginning of
      the command's traffic, and the image holds the words taken so far; the
      command is over once the host has let it take its steps, and it has
      then taken 256 words a sector. */
  lemma WriteCommand(d: Dev, opening: seq<Inp>, t: Taskfile, inputs: seq<Inp>)
    requires Ready(d) && Whole(t) && R.ForDisk(d, t) && (Command(t) == 0x30 || Command(t) == 0x31)
    requires Handover(opening, t) && Patient(inputs)
    ensures Valid(Decoded(d, t)) && Geometry(d.drive)
    ensures var r, run, s := R.Requested(d, t), Run(d, opening + inputs), HandleCommand(Decoded(d, t));
            var traffic := Fetches(d.base, 0) + WriteOps(d.base, d.drive, r, 0);
            && r.sectorCount == (if Lo(t.w[1]) == 0 then 256 else Lo(t.w[1]))
            && run.ops <= traffic
            && run.d.drive == d.drive && run.d.base == d.base && !run.d.cdrom
            && run.d.image == Land(d.image, GetLba(r, d.drive), Span(r), 0, Words(s, inputs))
            && (run.d.phase.Idle? <==> Useful(s, inputs) == 267 * r.sectorCount + 9)
            && (run.d.phase.Idle? ==> run.ops == traffic && |Words(s, inputs)| == 256 * r.sectorCount)
  {
    hide *;
    R.ReadyGeometry(d);
    DecodedPhase(d, t);
    CommandArrives(d, opening, t);
    RunConcat(d, opening, inputs);
    WriteStarts(d, t);
    var s := HandleCommand(Decoded(d, t));
    WriteRuns(s, inputs, []);
    AccountsAre(s, inputs, []);
    var run := Run(s, inputs);
    WriteOver(run.d);
    assert Words(s, inputs) + [] == Words(s, inputs);
    assert Landing(s, Words(s, inputs)) == run.d.image;
    if run.d.phase.Idle? {
      assert run.ops + [] == run.ops;
    }
  }

  lemma StillReady(d: Dev, e: Dev)
    requires Ready(d) && Valid(e) && e.phase.Idle? && e.base == d.base
    ensures Ready(e)
  {
    hide Valid;
  }

  // ---- Other commands in between ----

  /** A command from the handover to its end. */
  datatype Issued = Issued(opening: seq<Inp>, t: Taskfile, inputs: seq<Inp>)

  predicate IsWrite(t: Taskfile)
    requires Whole(t)
  {
    Command(t) == 0x30 || Command(t) == 0x31
  }

  predicate IsRead(t: Taskfile)
    requires Whole(t)
  {
    Command(t) == 0x20 || Command(t) == 0x21
  }

  /** It names none of the n sectors from lba on. */
  ghost predicate Misses(d: Dev, t: Taskfile, lba: nat, n: nat)
    requires Whole(t)
  {
    var r := R.Requested(d, t);
    forall j :: 0 <= j < r.sectorCount ==> !(lba <= SectorAt(GetLba(r, d.drive), j, Span(r)) < lba + n)
  }

  function Done(d: Dev, x: Issued): (e: Dev)
    requires Valid(d)
    ensures Valid(e)
  {
    Run(d, x.opening + x.inputs).d
  }

  /** A read or a write of the disk that runs to its end, and if it writes,
      elsewhere. */
  ghost predicate Spares(d: Dev, x: Issued, lba: nat, n: nat)
    requires Valid(d)
  {
    && Whole(x.t) && R.ForDisk(d, x.t) && (IsRead(x.t) || IsWrite(x.t))
    && Handover(x.opening, x.t) && Patient(x.inputs) && Done(d, x).phase.Idle?
    && (IsWrite(x.t) ==> Misses(d, x.t, lba, n))
  }

  ghost predicate AllSpare(d: Dev, xs: seq<Issued>, lba: nat, n: nat)
    requires Valid(d)
    decreases xs
  {
    xs != [] ==> Spares(d, xs[0], lba, n) && AllSpare(Done(d, xs[0]), xs[1..], lba, n)
  }

  function DoneAll(d: Dev, xs: seq<Issued>): (e: Dev)
    requires Valid(d)
    ensures Valid(e)
    decreases xs
  {
    if xs == [] then d else DoneAll(Done(d, xs[0]), xs[1..])
  }

  /** The same disk, ready for a command, with the same n sectors from lba. */
  ghost predicate Keeps(d: Dev, e: Dev, lba: nat, n: nat) {
    && Ready(e) && !e.cdrom && e.base == d.base && e.drive == d.drive && |e.image| == |d.image|
    && (lba + n) * 512 <= |d.image|
    && e.image[lba * 512..(lba + n) * 512] == d.image[lba * 512..(lba + n) * 512]
  }

  lemma LandMisses(image: seq<Byte>, to: Word32, span: nat, count: nat, ws: seq<Word16>, lba: nat, n: nat)
    requires 0 < span <= 0x1_0000_0000 && |ws| == 256 * count && (lba + n) * 512 <= |image|
    requires forall j :: 0 <= j < count ==> !(lba <= SectorAt(to, j, span) < lba + n)
    ensures Land(image, to, span, 0, ws)[lba * 512..(lba + n) * 512] == image[lba * 512..(lba + n) * 512]
  {
    hide SectorAt, Land;
    var after := Land(image, to, span, 0, ws);
    forall x | lba * 512 <= x < (lba + n) * 512
      ensures after[x] == image[x]
    {
      assert lba <= x / 512 < lba + n;
      LandElsewhere(image, to, span, 0, ws, count, x);
    }
  }

  lemma OneKeeps(d: Dev, x: Issued, lba: nat, n: nat)
    requires Ready(d) && !d.cdrom && (lba + n) * 512 <= |d.image| && Spares(d, x, lba, n)
    ensures Keeps(d, Done(d, x), lba, n)
  {
    hide Run, Handover, Patient, Land, Words, HandleCommand, Decoded, SectorAt, GetLba, Span, R.Requested, Valid;
    hide Useful, WriteOps, R.ReadOps, Fetches;
    ReadyParts(d);
    var e := Done(d, x);
    if IsWrite(x.t) {
      DecodedPhase(d, x.t);
      WriteCommand(d, x.opening, x.t, x.inputs);
      var r, ws := R.Requested(d, x.t), Words(HandleCommand(Decoded(d, x.t)), x.inputs);
      SpanFits(r);
      LandMisses(d.image, GetLba(r, d.drive), Span(r), r.sectorCount, ws, lba, n);
    } else {
      R.ReadCommand(d, x.opening, x.t, x.inputs);
    }
    StillReady(d, e);
  }

  lemma ReadyParts(d: Dev)
    requires Ready(d)
    ensures Valid(d) && d.phase.Idle?
  {
    hide Valid;
  }

  lemma SpanFits(r: Regs)
    ensures 0 < Span(r) <= 0x1_0000_0000
  {
  }

  lemma KeepsTrans(d: Dev, e: Dev, f: Dev, lba: nat, n: nat)
    requires Keeps(d, e, lba, n) && Keeps(e, f, lba, n)
    ensures Keeps(d, f, lba, n)
  {
    hide Ready;
  }

  lemma KeepsParts(d: Dev, e: Dev, lba: nat, n: nat)
    requires Keeps(d, e, lba, n)
    ensures Ready(e) && Valid(e) && !e.cdrom && e.base == d.base && e.drive == d.drive && (lba + n) * 512 <= |e.image|
  {
    hide Valid;
  }

  lemma KeepsSelf(d: Dev, lba: nat, n: nat)
    requires Ready(d) && !d.cdrom && (lba + n) * 512 <= |d.image|
    ensures Keeps(d, d, lba, n)
  {
    hide Ready;
  }

  /** Reads, and writes elsewhere, leave the sectors as they are. */
  lemma {:induction false} SectorsStay(d: Dev, xs: seq<Issued>, lba: nat, n: nat)
    requires Ready(d) && !d.cdrom && (lba + n) * 512 <= |d.image| && AllSpare(d, xs, lba, n)
    ensures Keeps(d, DoneAll(d, xs), lba, n)
    decreases xs
  {
    hide Ready, Keeps, Spares, Done;
    ReadyParts(d);
    if xs == [] {
      KeepsSelf(d, lba, n);
    } else {
      var e := Done(d, xs[0]);
      OneKeeps(d, xs[0], lba, n);
      KeepsParts(d, e, lba, n);
      SectorsStay(e, xs[1..], lba, n);
      KeepsTrans(d, e, DoneAll(d, xs), lba, n);
    }
  }

  // ---- What was written is read ----

  /** A read of n sectors from lba on, however it names them. */
  ghost predicate ReadsAt(d: Dev, x: Issued, lba: nat, n: nat) {
    && Whole(x.t) && R.ForDisk(d, x.t) && IsRead(x.t) && Handover(x.opening, x.t) && Patient(x.inputs)
    && var r := R.Requested(d, x.t);
       GetLba(r, d.drive) == lba && r.sectorCount == n && lba + n <= Span(r)
  }

  lemma ReadsWhatIsThere(d: Dev, x: Issued, lba: nat, n: nat)
    requires Ready(d) && !d.cdrom && ReadsAt(d, x, lba, n) && (lba + n) * 512 <= |d.image|
    ensures Valid(d)
    ensures var read := Run(d, x.opening + x.inputs);
            read.d.phase.Idle? ==>
              read.d.image == d.image && Payload(d.base, read.ops) == d.image[lba * 512..(lba + n) * 512]
  {
    hide Run, Handover, Patient, HandleCommand, Decoded, GetLba, Span, R.Requested, Valid, Useful;
    hide R.ReadOps, Fetches, R.SectorsFrom, Payload;
    ReadyParts(d);
    R.ReadCommand(d, x.opening, x.t, x.inputs);
    R.SectorsInImage(d.image, lba, Span(R.Requested(d, x.t)), n);
  }

  /** A write that stays on the disk, then any reads and any writes of other
      sectors, then a read of the sectors written, named in either way: the
      write stores exactly the words it took and changes nothing else, and the
      read sends them back. */
  lemma WriteThenRead(d: Dev, x: Issued, between: seq<Issued>, y: Issued)
    requires Ready(d) && Whole(x.t) && R.ForDisk(d, x.t) && IsWrite(x.t)
    requires Handover(x.opening, x.t) && Patient(x.inputs) && Done(d, x).phase.Idle?
    requires var r, e := R.Requested(d, x.t), Done(d, x);
             var lba, n := GetLba(r, d.drive), r.sectorCount;
             && lba + n <= Span(r) && (lba + n) * 512 <= |d.image|
             && AllSpare(e, between, lba, n) && ReadsAt(DoneAll(e, between), y, lba, n)
    ensures Valid(Decoded(d, x.t))
    ensures var r, e := R.Requested(d, x.t), Done(d, x);
            var lba, ws := GetLba(r, d.drive), Words(HandleCommand(Decoded(d, x.t)), x.inputs);
            var f := DoneAll(e, between);
            var read := Run(f, y.opening + y.inputs);
            && |ws| == 256 * r.sectorCount
            && e.image == d.image[..lba * 512] + Flat(ws) + d.image[(lba + r.sectorCount) * 512..]
            && (read.d.phase.Idle? ==> read.d.image == f.image && Payload(d.base, read.ops) == Flat(ws))
  {
    hide Run, Handover, Patient, HandleCommand, GetLba, Span, R.Requested, Valid, Useful, Decoded;
    hide R.ReadOps, WriteOps, Fetches, R.SectorsFrom, Payload, Land, Words, Flat, Ready, AllSpare, DoneAll, ReadsAt;
    ReadyParts(d);
    DecodedPhase(d, x.t);
    WriteCommand(d, x.opening, x.t, x.inputs);
    var r, e := R.Requested(d, x.t), Done(d, x);
    var lba, n, ws := GetLba(r, d.drive), r.sectorCount, Words(HandleCommand(Decoded(d, x.t)), x.inputs);
    StillReady(d, e);
    SpanFits(r);
    ReadsBack(d.image, lba, Span(r), n, ws);
    R.SectorsInImage(e.image, lba, Span(r), n);
    SectorsStay(e, between, lba, n);
    KeepsParts(e, DoneAll(e, between), lba, n);
    ReadsWhatIsThere(DoneAll(e, between), y, lba, n);
  }
}
