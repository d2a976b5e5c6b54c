/** Packet commands of the CD drive: the data phases of a READ over whole
    runs, and what an unfinished READ does to the commands after it. */
module IdePackets {
  import opened Platform
  import opened Ide
  import opened IdeAddresses
  import opened IdeRuns
  import R = IdeReads

  // ---- Traffic ----

  /** A data phase's words, from word k on. */
  function WordsFrom(base: Word16, data: seq<Byte>, k: nat): (ops: seq<Op>)
    decreases |data| - 2 * k
  {
    if 2 * k + 1 < |data| then
      [Wr((base + 255) % 0x1_0000, Word(data[2 * k], data[2 * k + 1]))] + WordsFrom(base, data, k + 1)
    else []
  }

  predicate InImage(image: seq<Byte>, a: Atapi) {
    a.lba * BLOCK + Chunk(a.remaining, a.limit) * BLOCK <= |image|
  }

  /** The next data phase's bytes. */
  function Phase(image: seq<Byte>, a: Atapi): (b: seq<Byte>)
    requires InImage(image, a)
    ensures |b| % 2 == 0 && |b| <= 8 * BLOCK
  {
    var n := Chunk(a.remaining, a.limit);
    Trimmed(image[a.lba * BLOCK..a.lba * BLOCK + n * BLOCK], a.limit)
  }

  function AfterPhase(a: Atapi): (b: Atapi)
    requires a.remaining > 0
    ensures b.remaining < a.remaining && b.limit == a.limit
  {
    var n := Chunk(a.remaining, a.limit);
    a.(lba := (a.lba + n) % 0x1_0000_0000, remaining := a.remaining - n)
  }

  /** All that a READ sends from here on: data phases, each with its register
      block, and one block that ends it. */
  function CdOps(base: Word16, image: seq<Byte>, a: Atapi, r: Regs): seq<Op>
    decreases a.remaining
  {
    if a.remaining == 0 then BlockFrom(base, Block(FinishedRegs(r, 0, 0), true), 0)
    else if !InImage(image, a) then BlockFrom(base, Block(FinishedRegs(r, 5, 0), true), 0)
    else
      var sent := Phase(image, a);
      var r' := PacketRegs(r, |sent|);
      WordsFrom(base, sent, 0)
      + (BlockFrom(base, Block(r', true), 0) + CdOps(base, image, AfterPhase(a), r'))
  }

  // ---- One step ----

  /** A CD drive in the data phases of a packet command, or between commands. */
  ghost predicate InCd(d: Dev) {
    && Valid(d) && d.cdrom
    && match d.phase
       case PacketSend =>
         d.cnt <= d.regs.pktIoSize && 2 * d.regs.pktIoSize == |d.atapi.data|
       case SetRegs => d.next.PacketReadWaitReq? || d.next.Idle?
       case SetRegsSend =>
         && (d.next.PacketReadWaitReq? || d.next.Idle?)
         && d.cnt <= 6 && |d.buf| == 12 && d.buf == Block(d.regs, true)
       case PacketReadWaitReq => true
       case Idle => true
       case _ => false
  }

  ghost function Rest(d: Dev): seq<Op>
    requires InCd(d)
  {
    var later := CdOps(d.base, d.image, d.atapi, d.regs);
    match d.phase
    case PacketSend => WordsFrom(d.base, d.atapi.data, d.cnt) + (BlockFrom(d.base, Block(d.regs, true), 0) + later)
    case SetRegs => BlockFrom(d.base, Block(d.regs, true), 0) + (if d.next.Idle? then [] else later)
    case SetRegsSend => BlockFrom(d.base, d.buf, d.cnt) + (if d.next.Idle? then [] else later)
    case PacketReadWaitReq => later
    case _ => []
  }

  /** The blocks still to read when a READ is over. */
  function CdLeft(image: seq<Byte>, a: Atapi): Word32
    decreases a.remaining
  {
    if a.remaining == 0 || !InImage(image, a) then a.remaining else CdLeft(image, AfterPhase(a))
  }

  /** The steps a READ takes from here on, waits aside. */
  function CdWork(image: seq<Byte>, a: Atapi): (n: nat)
    ensures n > 0
    decreases a.remaining
  {
    if a.remaining == 0 || !InImage(image, a) then 9
    else 10 + |Phase(image, a)| / 2 + CdWork(image, AfterPhase(a))
  }

  ghost function Work(d: Dev): nat
    requires InCd(d)
  {
    var later := CdWork(d.image, d.atapi);
    match d.phase
    case PacketSend => d.regs.pktIoSize - d.cnt + 9 + later
    case SetRegs => 8 + (if d.next.Idle? then 0 else later)
    case SetRegsSend => 7 - d.cnt + (if d.next.Idle? then 0 else later)
    case PacketReadWaitReq => later
    case _ => 0
  }

  predicate Waits(d: Dev, i: Inp) {
    d.phase.Idle? || (d.phase.PacketReadWaitReq? && i.request == 0)
  }

  /** Those a device in a command, or after one, will have left. */
  ghost function Left(d: Dev): Word32
    requires InCd(d)
  {
    if d.phase.Idle? || ((d.phase.SetRegs? || d.phase.SetRegsSend?) && d.next.Idle?) then d.atapi.remaining
    else CdLeft(d.image, d.atapi)
  }

  predicate Same(d: Dev, e: Dev) {
    e.base == d.base && e.image == d.image && e.drive == d.drive
  }

  ghost predicate Takes(d: Dev, s: Step, waits: bool)
    requires InCd(d)
  {
    InCd(s.d) && Same(d, s.d) && Rest(d) == Emit(s.op) + Rest(s.d) && Left(s.d) == Left(d)
    && Work(d) == Work(s.d) + (if waits then 0 else 1)
  }

  /** The data last sent does not matter to what follows. */
  lemma {:induction false} DataIsSpent(base: Word16, image: seq<Byte>, a: Atapi, b: Atapi, r: Regs)
    requires b.lba == a.lba && b.remaining == a.remaining && b.limit == a.limit
    ensures CdOps(base, image, a, r) == CdOps(base, image, b, r) && CdLeft(image, a) == CdLeft(image, b)
    ensures CdWork(image, a) == CdWork(image, b)
    decreases a.remaining
  {
    hide BlockFrom, Block, WordsFrom, Trimmed;
    if a.remaining > 0 && InImage(image, a) {
      DataIsSpent(base, image, AfterPhase(a), AfterPhase(b), PacketRegs(r, |Phase(image, a)|));
    }
  }

  lemma BlocksTake(d: Dev)
    requires InCd(d) && d.phase.PacketReadWaitReq?
    ensures Takes(d, Silent(ReadBlocks(d)), false)
  {
    hide Or, Block, Chunk, Trimmed, BlockFrom, WordsFrom;
    if d.atapi.remaining > 0 && InImage(d.image, d.atapi) {
      PhaseTakes(d);
    }
  }

  lemma PhaseTakes(d: Dev)
    requires InCd(d) && d.phase.PacketReadWaitReq? && d.atapi.remaining > 0 && InImage(d.image, d.atapi)
    ensures Takes(d, Silent(ReadBlocks(d)), false)
  {
    hide Or, Block, BlockFrom, WordsFrom, Phase, AfterPhase, InImage, Valid, ReadBlocks;
    PhaseReady(d);
    var e := ReadBlocks(d);
    DataIsSpent(d.base, d.image, AfterPhase(d.atapi), e.atapi, e.regs);
  }

  lemma PhaseReady(d: Dev)
    requires InCd(d) && d.phase.PacketReadWaitReq? && d.atapi.remaining > 0 && InImage(d.image, d.atapi)
    ensures var e, sent := ReadBlocks(d), Phase(d.image, d.atapi);
            && InCd(e) && e.atapi == AfterPhase(d.atapi).(data := sent) && e.regs == PacketRegs(d.regs, |sent|)
            && e == d.(phase := PacketSend, cnt := 0, atapi := e.atapi, regs := e.regs, next := e.next)
  {
    hide Or, Block;
  }

  lemma UnfoldWords(base: Word16, data: seq<Byte>, k: nat)
    ensures 2 * k + 1 < |data| ==>
      WordsFrom(base, data, k) == [Wr((base + 255) % 0x1_0000, Word(data[2 * k], data[2 * k + 1]))]
            + WordsFrom(base, data, k + 1)
    ensures 2 * k + 1 >= |data| ==> WordsFrom(base, data, k) == []
  {
  }

  lemma SendTakes(d: Dev)
    requires InCd(d) && d.phase.PacketSend?
    ensures Takes(d, SendPacketData(d), false)
  {
    if d.cnt < d.regs.pktIoSize {
      SendGoesOn(d);
    } else {
      hide Or, Block, BlockFrom, CdOps, WordsFrom, Word, CdLeft, CdWork;
      UnfoldWords(d.base, d.atapi.data, d.cnt);
    }
  }

  lemma SendGoesOn(d: Dev)
    requires InCd(d) && d.phase.PacketSend? && d.cnt < d.regs.pktIoSize
    ensures Takes(d, SendPacketData(d), false)
  {
    hide Or, Block, Word, CdLeft, CdWork, Valid, SendPacketData, Rest;
    SendsWord(d);
    SendRest(d);
  }

  lemma SendRest(d: Dev)
    requires InCd(d) && d.phase.PacketSend? && d.cnt < d.regs.pktIoSize
    ensures var s := SendPacketData(d);
            InCd(s.d) && Rest(d) == Emit(s.op) + Rest(s.d)
  {
    hide Or, Block, BlockFrom, CdOps, WordsFrom, Word, Valid, SendPacketData;
    SendsWord(d);
    UnfoldWords(d.base, d.atapi.data, d.cnt);
    R.Assoc(Emit(SendPacketData(d).op), WordsFrom(d.base, d.atapi.data, d.cnt + 1),
            BlockFrom(d.base, Block(d.regs, true), 0) + CdOps(d.base, d.image, d.atapi, d.regs));
  }

  lemma SendsWord(d: Dev)
    requires InCd(d) && d.phase.PacketSend? && d.cnt < d.regs.pktIoSize
    ensures var s := SendPacketData(d);
            && Valid(s.d) && s.d == d.(cnt := d.cnt + 1, addr := s.d.addr)
            && s.op == Wr((d.base + 255) % 0x1_0000, Word(d.atapi.data[2 * d.cnt], d.atapi.data[2 * d.cnt + 1]))
  {
    hide Or, Block, Word;
  }

  lemma StageTakes(d: Dev)
    requires InCd(d) && d.phase.SetRegs?
    ensures Takes(d, Silent(StageRegs(d)), false)
  {
    hide Or, Has, Block, BlockFrom, CdOps, CdLeft, CdWork;
  }

  lemma BlockTakes(d: Dev)
    requires InCd(d) && d.phase.SetRegsSend?
    ensures Takes(d, SendRegs(d), false)
  {
    if d.cnt == 6 {
      BlockEnds(d);
    } else {
      BlockGoesOn(d);
    }
  }

  lemma BlockEnds(d: Dev)
    requires InCd(d) && d.phase.SetRegsSend? && d.cnt == 6
    ensures Takes(d, SendRegs(d), false)
  {
    hide Or, Block, BlockFrom, CdOps, WordsFrom, Word, CdLeft, CdWork;
    UnfoldBlock(d.base, d.buf, d.cnt);
  }

  lemma BlockGoesOn(d: Dev)
    requires InCd(d) && d.phase.SetRegsSend? && d.cnt < 6
    ensures Takes(d, SendRegs(d), false)
  {
    hide Or, Block, Word, CdLeft, CdWork, Valid, SendRegs, Rest;
    SendsPair(d);
    PairRest(d);
  }

  lemma PairRest(d: Dev)
    requires InCd(d) && d.phase.SetRegsSend? && d.cnt < 6
    ensures var s := SendRegs(d);
            InCd(s.d) && Rest(d) == Emit(s.op) + Rest(s.d)
  {
    hide Or, Block, BlockFrom, CdOps, WordsFrom, Word, Valid, SendRegs;
    SendsPair(d);
    UnfoldBlock(d.base, d.buf, d.cnt);
    R.Assoc(Emit(SendRegs(d).op), BlockFrom(d.base, d.buf, d.cnt + 1),
            if d.next.Idle? then [] else CdOps(d.base, d.image, d.atapi, d.regs));
  }

  lemma SendsPair(d: Dev)
    requires InCd(d) && d.phase.SetRegsSend? && d.cnt < 6
    ensures var s := SendRegs(d);
            && Valid(s.d) && s.d == d.(cnt := d.cnt + 1, addr := s.d.addr)
            && s.op == Wr((d.base + d.cnt) % 0x1_0000, Word(d.buf[2 * d.cnt], d.buf[2 * d.cnt + 1]))
  {
    hide Or, Block, Word;
  }

  lemma NextInCd(d: Dev, i: Inp)
    requires Valid(d) && (i.request == 0 || i.request == 5)
    ensures d.phase.PacketSend? ==> Next(d, i) == SendPacketData(d)
    ensures d.phase.SetRegs? ==> Next(d, i) == Silent(StageRegs(d))
    ensures d.phase.SetRegsSend? ==> Next(d, i) == SendRegs(d)
    ensures d.phase.PacketReadWaitReq? ==> Next(d, i) == Silent(if i.request == 5 then ReadBlocks(d) else d)
    ensures d.phase.Idle? ==> Next(d, i) == Silent(d)
  {
    hide ReadBlocks, SendPacketData, StageRegs, SendRegs;
  }

  lemma CdTakesStep(d: Dev, i: Inp)
    requires InCd(d) && (i.request == 0 || i.request == 5)
    ensures Takes(d, Next(d, i), Waits(d, i))
  {
    hide Next, Valid, ReadBlocks, SendPacketData, StageRegs, SendRegs, CdOps, BlockFrom, WordsFrom, CdLeft, CdWork;
    NextInCd(d, i);
    match d.phase
    case PacketSend => SendTakes(d);
    case SetRegs => StageTakes(d);
    case SetRegsSend => BlockTakes(d);
    case PacketReadWaitReq =>
      if i.request == 5 {
        BlocksTake(d);
      }
    case _ =>
  }

  /** The steps of a run that do not just wait. */
  ghost function Useful(d: Dev, inputs: seq<Inp>): (n: nat)
    requires Valid(d)
    decreases inputs
  {
    if inputs == [] then 0
    else (if Waits(d, inputs[0]) then 0 else 1) + Useful(Next(d, inputs[0]).d, inputs[1..])
  }

  lemma WorkZero(d: Dev)
    requires InCd(d)
    ensures d.phase.Idle? <==> Work(d) == 0
  {
  }

  /** Over any run the host paces as it likes, a READ sends what it has to. */
  lemma {:induction false} CdRuns(d: Dev, inputs: seq<Inp>)
    requires InCd(d) && Patient(inputs)
    ensures var r := Run(d, inputs);
            && InCd(r.d) && Same(d, r.d) && Rest(d) == r.ops + Rest(r.d) && Left(r.d) == Left(d)
            && Work(d) == Work(r.d) + Useful(d, inputs) && (r.d.phase.Idle? <==> Work(r.d) == 0)
    decreases inputs
  {
    hide Next, Rest, Left, Work;
    if inputs == [] {
      WorkZero(d);
      hide Valid;
    } else {
      CdTakesStep(d, inputs[0]);
      var s := Next(d, inputs[0]);
      var r := Run(s.d, inputs[1..]);
      hide InCd, Valid;
      assert Patient(inputs[1..]);
      CdRuns(s.d, inputs[1..]);
      R.Assoc(Emit(s.op), r.ops, Rest(r.d));
    }
  }

  // ---- What is sent ----

  /** The data phases a READ takes. */
  function Phases(a: Atapi): nat
    decreases a.remaining
  {
    if a.remaining == 0 then 0 else 1 + Phases(AfterPhase(a))
  }

  function Most(limit: Word16): (m: nat)
    ensures 1 <= m <= 8
  {
    if limit >= BLOCK && limit / BLOCK < 8 then limit / BLOCK else if limit >= BLOCK then 8 else 1
  }

  function CeilDiv(n: nat, m: nat): nat
    requires m > 0
  {
    (n + m - 1) / m
  }

  /** With room for a block, a phase holds as many as fit, and no byte is
      dropped. */
  lemma RoomyPhase(image: seq<Byte>, a: Atapi)
    requires BLOCK <= a.limit && a.remaining > 0
    ensures var n := Chunk(a.remaining, a.limit);
            && n == (if a.remaining < Most(a.limit) then a.remaining else Most(a.limit))
            && (InImage(image, a) ==> Phase(image, a) == image[a.lba * BLOCK..(a.lba + n) * BLOCK])
  {
    var n := Chunk(a.remaining, a.limit);
    assert n * BLOCK <= a.limit;
    assert (n * BLOCK) % 2 == 0;
  }

  lemma {:induction false} PayloadOfWords(base: Word16, data: seq<Byte>, k: nat)
    requires 2 * k <= |data| && |data| % 2 == 0
    ensures Payload(base, WordsFrom(base, data, k)) == data[2 * k..] && 2 * |WordsFrom(base, data, k)| == |data| - 2 * k
    decreases |data| - 2 * k
  {
    if 2 * k < |data| {
      PayloadOfWords(base, data, k + 1);
      var lo, hi := data[2 * k], data[2 * k + 1];
      assert Word(lo, hi) % 0x100 == lo && Word(lo, hi) / 0x100 == hi;
      assert data[2 * k..] == [lo, hi] + data[2 * (k + 1)..];
      assert WordsFrom(base, data, k)[1..] == WordsFrom(base, data, k + 1);
    }
  }

  lemma OnePhase(base: Word16, image: seq<Byte>, a: Atapi, r: Regs)
    requires 0 < a.remaining && InImage(image, a)
    ensures var sent := Phase(image, a);
            var later := CdOps(base, image, AfterPhase(a), PacketRegs(r, |sent|));
            && CdOps(base, image, a, r)
               == WordsFrom(base, sent, 0) + (BlockFrom(base, Block(PacketRegs(r, |sent|), true), 0) + later)
            && Payload(base, CdOps(base, image, a, r)) == sent + Payload(base, later)
            && 2 * |WordsFrom(base, sent, 0)| == |sent|
  {
    hide Phase, Payload, WordsFrom, BlockFrom, Block, PacketRegs, AfterPhase, InImage;
    var sent := Phase(image, a);
    var r' := PacketRegs(r, |sent|);
    var later := CdOps(base, image, AfterPhase(a), r');
    PayloadConcat(base, WordsFrom(base, sent, 0), BlockFrom(base, Block(r', true), 0) + later);
    PayloadConcat(base, BlockFrom(base, Block(r', true), 0), later);
    PayloadOfBlock(base, Block(r', true), 0);
    PayloadOfWords(base, sent, 0);
  }

  /** The registers that report success: no error, no data, the interrupt
      reason of a completion. */
  predicate Success(r: Regs) {
    !Has(r.status, ERR) && !Has(r.status, DRQ) && r.error == 0 && r.sectorCount == 3 && r.pktIoSize == 0
  }

  lemma FinishedIs(r: Regs, key: Byte)
    requires key == 0 || key == 5
    ensures Success(FinishedRegs(r, key, 0)) <==> key == 0
    ensures Has(FinishedRegs(r, key, 0).status, ERR) <==> key != 0
  {
  }

  lemma CeilStep(rest: nat, n: nat, m: nat)
    requires m > 0 && rest > 0 && n == (if rest < m then rest else m)
    ensures CeilDiv(rest, m) == 1 + CeilDiv(rest - n, m)
  {
    if rest < m {
      Unique(rest + m - 1, m, 1, rest - 1);
      Unique(m - 1, m, 0, m - 1);
    } else {
      Divide(rest - 1, m);
      var q, r := (rest - 1) / m, (rest - 1) % m;
      assert (q + 1) * m == q * m + m;
      Unique(rest + m - 1, m, q + 1, r);
    }
  }

  /** The phase at the head of a READ on the disc, and the READ it leaves. */
  lemma RoomyStep(image: seq<Byte>, a: Atapi)
    requires 0 < a.remaining
    requires BLOCK <= a.limit && (a.lba + a.remaining) * BLOCK <= |image| && a.lba + a.remaining <= 0x1_0000_0000
    ensures InImage(image, a)
    ensures var b, n := AfterPhase(a), Chunk(a.remaining, a.limit);
            && b.limit == a.limit && b.remaining == a.remaining - n && n > 0
            && (b.lba + b.remaining) * BLOCK <= |image| && b.lba + b.remaining <= 0x1_0000_0000
            && Phase(image, a) == image[a.lba * BLOCK..(a.lba + n) * BLOCK] && |Phase(image, a)| == 2048 * n
            && image[a.lba * BLOCK..(a.lba + a.remaining) * BLOCK]
               == image[a.lba * BLOCK..(a.lba + n) * BLOCK] + image[b.lba * BLOCK..(b.lba + b.remaining) * BLOCK]
            && Phases(a) == 1 + Phases(b)
            && CeilDiv(a.remaining, Most(a.limit)) == 1 + CeilDiv(b.remaining, Most(a.limit))
  {
    hide CeilDiv, Phase, Chunk, Most;
    RoomyPhase(image, a);
    var b, n := AfterPhase(a), Chunk(a.remaining, a.limit);
    CeilStep(a.remaining, n, Most(a.limit));
    assert (a.lba + n) * BLOCK <= (a.lba + a.remaining) * BLOCK;
    if b.remaining == 0 {
      assert image[b.lba * BLOCK..(b.lba + b.remaining) * BLOCK] == [];
    } else {
      assert b.lba == a.lba + n;
    }
  }

  lemma Tail<T>(x: seq<T>, y: seq<T>, z: seq<T>, k: nat)
    requires k <= |z|
    ensures var all := x + (y + z);
            |all| == |x| + |y| + |z| && all[|all| - k..] == z[|z| - k..]
  {
  }

  lemma CdNothing(base: Word16, image: seq<Byte>, a: Atapi, r: Regs)
    requires a.remaining == 0 && a.lba * BLOCK <= |image|
    ensures CdOps(base, image, a, r) == BlockFrom(base, Block(FinishedRegs(r, 0, 0), true), 0)
    ensures Payload(base, CdOps(base, image, a, r)) == image[a.lba * BLOCK..(a.lba + a.remaining) * BLOCK] == []
    ensures Phases(a) == 0 && CeilDiv(a.remaining, Most(a.limit)) == 0
  {
    hide Payload, BlockFrom, Block;
    PayloadOfBlock(base, Block(FinishedRegs(r, 0, 0), true), 0);
    Unique(Most(a.limit) - 1, Most(a.limit), 0, Most(a.limit) - 1);
  }

  /** A READ of blocks on the disc, with room for a block: the data phases
      together are exactly those blocks, and there are as few as the limit
      allows. */
  lemma {:induction false} CdReadSends(base: Word16, image: seq<Byte>, a: Atapi, r: Regs)
    requires BLOCK <= a.limit && (a.lba + a.remaining) * BLOCK <= |image| && a.lba + a.remaining <= 0x1_0000_0000
    ensures Payload(base, CdOps(base, image, a, r)) == image[a.lba * BLOCK..(a.lba + a.remaining) * BLOCK]
    ensures Phases(a) == CeilDiv(a.remaining, Most(a.limit))
    ensures |CdOps(base, image, a, r)| == 1024 * a.remaining + 6 * Phases(a) + 6
    decreases a.remaining
  {
    hide *;
    if a.remaining == 0 {
      CdNothing(base, image, a, r);
    } else {
      RoomyStep(image, a);
      var b, sent := AfterPhase(a), Phase(image, a);
      CdReadSends(base, image, b, PacketRegs(r, |sent|));
      OnePhase(base, image, a, r);
      Tail(WordsFrom(base, sent, 0), BlockFrom(base, Block(PacketRegs(r, |sent|), true), 0),
           CdOps(base, image, b, PacketRegs(r, |sent|)), 0);
    }
  }

  // ---- A limit below one block ----

  lemma ShortPhase(image: seq<Byte>, a: Atapi)
    requires 0 < a.limit < BLOCK && 0 < a.remaining && InImage(image, a)
    ensures |Phase(image, a)| <= 2048 && (a.limit < 2047 ==> |Phase(image, a)| < 2048)
    ensures a.remaining == 1 ==> Chunk(a.remaining, a.limit) == 1
    ensures a.remaining >= 2 ==> Chunk(a.remaining, a.limit) >= 2
    ensures a.limit == 2047 ==> Phase(image, a) == image[a.lba * BLOCK..a.lba * BLOCK + 2047] + [0]
  {
    var whole := image[a.lba * BLOCK..a.lba * BLOCK + Chunk(a.remaining, a.limit) * BLOCK];
    assert whole[..a.limit] == image[a.lba * BLOCK..a.lba * BLOCK + a.limit];
  }

  /** What a READ leaves when its first phase is on the disc too. */
  lemma InRangeStep(image: seq<Byte>, a: Atapi)
    requires 0 < a.remaining && (a.lba + a.remaining) * BLOCK <= |image| <= 0x1_0000_0000 * BLOCK
    ensures var b, n := AfterPhase(a), Chunk(a.remaining, a.limit);
            && InImage(image, a) && b.limit == a.limit && b.remaining == a.remaining - n && n > 0
            && (b.lba + b.remaining) * BLOCK <= |image| && (b.remaining > 0 ==> b.lba == a.lba + n)
            && Phases(a) == 1 + Phases(b)
  {
  }

  lemma {:induction false} ShortLength(base: Word16, image: seq<Byte>, a: Atapi, r: Regs)
    requires 0 < a.limit < BLOCK && (a.lba + a.remaining) * BLOCK <= |image| <= 0x1_0000_0000 * BLOCK
    ensures |Payload(base, CdOps(base, image, a, r))| <= 2048 * Phases(a)
    ensures Phases(a) <= a.remaining && (a.remaining >= 2 ==> Phases(a) < a.remaining)
    decreases a.remaining
  {
    hide *;
    if a.remaining == 0 {
      SizeOfBlock();
      CdNothing(base, image, a, r);
    } else {
      SizeOfBlock();
      InRangeStep(image, a);
      ShortPhase(image, a);
      ShortLength(base, image, AfterPhase(a), PacketRegs(r, |Phase(image, a)|));
      OnePhase(base, image, a, r);
    }
  }

  lemma SizeOfBlock()
    ensures BLOCK == 2048
  {
  }

  /** The data phases of a READ on the disc are the blocks asked for if and
      only if the host's limit has room for a block; but for one block whose
      last byte, 0 like the padding, is the one the limit drops. */
  lemma CdDataWholeIff(base: Word16, image: seq<Byte>, a: Atapi, r: Regs)
    requires 0 < a.limit && (a.lba + a.remaining) * BLOCK <= |image| <= 0x1_0000_0000 * BLOCK
    ensures Payload(base, CdOps(base, image, a, r)) == image[a.lba * BLOCK..(a.lba + a.remaining) * BLOCK]
       <==> || a.remaining == 0 || a.limit >= BLOCK
            || (a.remaining == 1 && a.limit == BLOCK - 1 && image[a.lba * BLOCK + BLOCK - 1] == 0)
  {
    hide *;
    SizeOfBlock();
    if a.remaining == 0 {
      CdNothing(base, image, a, r);
    } else if a.limit >= BLOCK {
      CdReadSends(base, image, a, r);
    } else {
      ShortLength(base, image, a, r);
      if a.remaining == 1 {
        InRangeStep(image, a);
        ShortPhase(image, a);
        var b, sent := AfterPhase(a), Phase(image, a);
        OnePhase(base, image, a, r);
        CdNothing(base, image, b, PacketRegs(r, |sent|));
        assert sent + [] == sent;
        if a.limit == 2047 {
          LastByte(image, a.lba * 2048);
        }
      }
    }
  }

  lemma LastByte(image: seq<Byte>, p: nat)
    requires p + 2048 <= |image|
    ensures image[p..p + 2047] + [0] == image[p..p + 2048] <==> image[p + 2047] == 0
  {
    assert image[p..p + 2048] == image[p..p + 2047] + [image[p + 2047]];
    assert (image[p..p + 2047] + [0])[2047] == 0;
  }

  // ---- How a READ ends ----

  function CdEnd(image: seq<Byte>, a: Atapi, r: Regs): Regs
    decreases a.remaining
  {
    if a.remaining == 0 then FinishedRegs(r, 0, 0)
    else if !InImage(image, a) then FinishedRegs(r, 5, 0)
    else CdEnd(image, AfterPhase(a), PacketRegs(r, |Phase(image, a)|))
  }

  /** The last thing a READ sends is the register block it ends with. */
  lemma {:induction false} CdEnds(base: Word16, image: seq<Byte>, a: Atapi, r: Regs)
    ensures var ops := CdOps(base, image, a, r);
            |ops| >= 6 && ops[|ops| - 6..] == BlockFrom(base, Block(CdEnd(image, a, r), true), 0)
    decreases a.remaining
  {
    hide BlockFrom, Block, WordsFrom, Phase, FinishedRegs, PacketRegs;
    if a.remaining > 0 && InImage(image, a) {
      var sent := Phase(image, a);
      CdEnds(base, image, AfterPhase(a), PacketRegs(r, |sent|));
      Tail(WordsFrom(base, sent, 0), BlockFrom(base, Block(PacketRegs(r, |sent|), true), 0),
           CdOps(base, image, AfterPhase(a), PacketRegs(r, |sent|)), 6);
    }
  }

  lemma OnDiscStep(image: seq<Byte>, a: Atapi)
    requires |image| < 0x1_0000_0000 * BLOCK && 0 < a.remaining
    ensures (a.lba + a.remaining) * BLOCK <= |image|
       <==> InImage(image, a) && OnDisc(image, AfterPhase(a))
  {
    var n := Chunk(a.remaining, a.limit);
    if InImage(image, a) {
      assert a.lba + n < 0x1_0000_0000;
    }
  }

  predicate OnDisc(image: seq<Byte>, a: Atapi) {
    a.remaining == 0 || (a.lba + a.remaining) * BLOCK <= |image|
  }

  /** It ends in success if and only if every block asked for is on the disc. */
  lemma {:induction false} CdSucceedsIff(image: seq<Byte>, a: Atapi, r: Regs)
    requires |image| < 0x1_0000_0000 * BLOCK
    ensures Success(CdEnd(image, a, r)) <==> OnDisc(image, a)
    decreases a.remaining
  {
    FinishedIs(r, 0);
    FinishedIs(r, 5);
    hide Success, FinishedRegs, PacketRegs, Phase, InImage, AfterPhase;
    if a.remaining > 0 {
      OnDiscStep(image, a);
      if InImage(image, a) {
        CdSucceedsIff(image, AfterPhase(a), PacketRegs(r, |Phase(image, a)|));
      }
    }
  }

  // ---- The blocks a READ leaves behind ----

  lemma {:induction false} CdLeftIff(image: seq<Byte>, a: Atapi)
    requires |image| < 0x1_0000_0000 * BLOCK
    ensures CdLeft(image, a) == 0 <==> OnDisc(image, a)
    decreases a.remaining
  {
    hide InImage, AfterPhase;
    if a.remaining > 0 {
      OnDiscStep(image, a);
      if InImage(image, a) {
        CdLeftIff(image, AfterPhase(a));
      }
    }
  }

  /** A READ that fails at once has sent nothing, and leaves all its blocks
      to read. */
  lemma FailedReadKeepsBlocks(d: Dev, lba: Word32, blocks: Word32)
    requires Valid(d) && 0 < blocks && !InImage(d.image, d.atapi.(lba := lba, remaining := blocks))
    ensures var e := ReadBlocks(Asked(d, lba, blocks));
            && e.phase.SetRegs? && e.next.Idle? && Has(e.regs.status, ERR)
            && e.atapi.lba == lba && e.atapi.remaining == blocks
  {
    FinishedIs(d.regs, 5);
    hide Or, Has;
  }

  /** Only the two READs, a data phase or a completion of one change them. */
  lemma OthersKeepBlocks(d: Dev)
    requires Valid(d) && d.atapi.packet[0] != 0x28 && d.atapi.packet[0] != 0xA8
    ensures var e := HandlePacket(d);
            e.atapi.lba == d.atapi.lba && e.atapi.remaining == d.atapi.remaining && e.atapi.limit == d.atapi.limit
  {
    hide Or, Trimmed;
  }

  lemma FirstWord(base: Word16, b: seq<Byte>)
    requires |b| == 12
    ensures BlockFrom(base, b, 0) != [] && BlockFrom(base, b, 0)[0] == Wr(base % 0x1_0000, Word(b[0], b[1]))
  {
  }

  lemma FinishedBytes(r: Regs, key: Byte)
    ensures var b := Block(FinishedRegs(r, key, 0), true);
            b[0] == 0x80 && b[1] == key * 16 % 0x100
  {
    hide Or;
  }

  lemma BlockTellsError(base: Word16, r: Regs)
    ensures var good, bad := Block(FinishedRegs(r, 0, 0), true), Block(FinishedRegs(r, 5, 0), true);
            && BlockFrom(base, good, 0) != [] && BlockFrom(base, good, 0) != BlockFrom(base, bad, 0)
            && BlockFrom(base, good, 0)[0] == Wr(base % 0x1_0000, 0x80)
  {
    hide Block, BlockFrom, FinishedRegs;
    var good, bad := Block(FinishedRegs(r, 0, 0), true), Block(FinishedRegs(r, 5, 0), true);
    FirstWord(base, good);
    FirstWord(base, bad);
    FinishedBytes(r, 0);
    FinishedBytes(r, 5);
  }

  /** What follows a data phase is one block that reports success if and only
      if no READ has left blocks to read: a command after a READ that failed
      goes on with that READ. */
  lemma CleanEndIff(base: Word16, image: seq<Byte>, a: Atapi, r: Regs)
    ensures CdOps(base, image, a, r) == BlockFrom(base, Block(FinishedRegs(r, 0, 0), true), 0) <==> a.remaining == 0
  {
    hide BlockFrom, Block, FinishedRegs, Phase, WordsFrom, PacketRegs, AfterPhase;
    BlockTellsError(base, r);
    if a.remaining > 0 && InImage(image, a) {
      var sent := Phase(image, a);
      PhaseNotEmpty(image, a);
      UnfoldWords(base, sent, 0);
      assert CdOps(base, image, a, r)[0].addr == (base + 255) % 0x1_0000;
    }
  }

  lemma PhaseNotEmpty(image: seq<Byte>, a: Atapi)
    requires InImage(image, a) && 0 < a.remaining
    ensures |Phase(image, a)| >= 2
  {
  }

  ghost predicate InCdHandle(d: Dev) {
    Valid(d) && d.cdrom && d.phase.PacketHandle?
  }

  lemma SenseFits(d: Dev)
    requires Valid(d)
    ensures var t := Trimmed(SenseData(d), d.atapi.limit); 2 * (|t| / 2 % 0x1_0000) == |t|
  {
  }

  // ---- The command ----

  /** The blocks a READ(10) or READ(12) packet asks for. */
  predicate AsksFor(packet: seq<Byte>, lba: Word32, blocks: Word32)
    requires |packet| == 12
  {
    && lba == Dword(packet[5], packet[4], packet[3], packet[2])
    && ((packet[0] == 0x28 && blocks == Pair(packet[8], packet[7], 0x100))
        || (packet[0] == 0xA8 && blocks == Dword(packet[9], packet[8], packet[7], packet[6])))
  }

  lemma HandleValid(d: Dev)
    requires InCdHandle(d)
    ensures Valid(d)
  {
  }

  lemma ReadHandled(d: Dev, lba: Word32, blocks: Word32)
    requires InCdHandle(d) && AsksFor(d.atapi.packet, lba, blocks)
    ensures Valid(Asked(d, lba, blocks))
    ensures HandlePacket(d) == ReadBlocks(Asked(d, lba, blocks))
  {
    hide ReadBlocks;
    Highest(d.atapi.packet, 2);
    Highest(d.atapi.packet, 6);
    hide Dword, Be32;
  }

  lemma Highest(p: seq<Byte>, k: nat)
    requires k + 4 <= |p|
    ensures Be32(p, k) == Dword(p[k + 3], p[k + 2], p[k + 1], p[k])
  {
  }

  lemma PhaseBlind(d: Dev)
    requires Valid(d) && d.phase.PacketHandle?
    ensures ReadBlocks(d) == ReadBlocks(d.(phase := PacketReadWaitReq))
  {
    hide Trimmed, Chunk, FinishedRegs, PacketRegs;
  }

  lemma ReadBegins(d: Dev, lba: Word32, blocks: Word32)
    requires InCdHandle(d) && AsksFor(d.atapi.packet, lba, blocks)
    ensures var s, a := HandlePacket(d), d.atapi.(lba := lba, remaining := blocks);
            && InCd(s) && Same(d, s) && Rest(s) == CdOps(d.base, d.image, a, d.regs) && Left(s) == CdLeft(d.image, a)
            && Work(s) + 1 == CdWork(d.image, a)
  {
    hide HandlePacket, ReadBlocks, CdOps, CdLeft, CdWork;
    ReadHandled(d, lba, blocks);
    PhaseBlind(Asked(d, lba, blocks));
    var e := Asked(d, lba, blocks).(phase := PacketReadWaitReq);
    BlocksTake(e);
    hide InCd;
  }

  lemma CdOver(d: Dev)
    requires InCd(d) && d.phase.Idle?
    ensures Rest(d) == [] && Left(d) == d.atapi.remaining
  {
  }

  /** READ(10) and READ(12) as a whole: at any time the bus has seen a
      beginning of the command's traffic. Once it is over, it has ended in
      success, with no block left to read, if and only if all the blocks are
      on the disc; and with room for a block in the host's limit, its data
      are those blocks. */
  lemma CdReadHandled(d: Dev, lba: Word32, blocks: Word32, inputs: seq<Inp>)
    requires InCdHandle(d) && AsksFor(d.atapi.packet, lba, blocks) && Patient(inputs)
    requires |d.image| < 0x1_0000_0000 * BLOCK
    ensures var a, run := d.atapi.(lba := lba, remaining := blocks), Run(HandlePacket(d), inputs);
            var ops := CdOps(d.base, d.image, a, d.regs);
            && run.ops <= ops && run.d.image == d.image
            && (run.d.phase.Idle? <==> Useful(HandlePacket(d), inputs) + 1 == CdWork(d.image, a))
            && (Success(CdEnd(d.image, a, d.regs)) <==> OnDisc(d.image, a))
            && (run.d.phase.Idle? ==> run.ops == ops && (run.d.atapi.remaining == 0 <==> OnDisc(d.image, a)))
            && (run.d.phase.Idle? && blocks > 0 && OnDisc(d.image, a) && d.atapi.limit >= BLOCK ==>
                  Payload(d.base, run.ops) == d.image[lba * BLOCK..(lba + blocks) * BLOCK])
  {
    hide *;
    SizeOfBlock();
    HandleValid(d);
    var a := d.atapi.(lba := lba, remaining := blocks);
    ReadBegins(d, lba, blocks);
    var s := HandlePacket(d);
    CdRuns(s, inputs);
    var run := Run(s, inputs);
    SameImage(d, s);
    SameImage(s, run.d);
    CdSucceedsIff(d.image, a, d.regs);
    CdLeftIff(d.image, a);
    OnDiscIs(d.image, a);
    if run.d.phase.Idle? {
      CdOver(run.d);
      assert run.ops + [] == run.ops;
      if blocks > 0 && OnDisc(d.image, a) && d.atapi.limit >= BLOCK {
        CdReadSends(d.base, d.image, a, d.regs);
      }
    }
  }

  lemma SameImage(d: Dev, e: Dev)
    requires Same(d, e)
    ensures e.image == d.image
  {
  }

  lemma OnDiscIs(image: seq<Byte>, a: Atapi)
    ensures OnDisc(image, a) <==> a.remaining == 0 || (a.lba + a.remaining) * BLOCK <= |image|
  {
  }

  // ---- The packet ----

  /** The packet when k of its six words are in. */
  function Packed(w: seq<Word16>, k: nat): (p: seq<Byte>)
    requires |w| == 6 && k <= 6
    ensures |p| == 12
  {
    seq(12, j requires 0 <= j < 12 => if j >= 2 * k then 0 else if j % 2 == 0 then Lo(w[j / 2]) else Hi(w[j / 2]))
  }

  function PacketReads(base: Word16, k: nat): seq<Op>
    requires k <= 6
    decreases 6 - k
  {
    if k == 6 then [Wr((base + 7) % 0x1_0000, 0)] else [Rd((base + 255) % 0x1_0000)] + PacketReads(base, k + 1)
  }

  /** The drive with the packet in, about to carry it out. */
  function Handed(d: Dev, addr: Word16, w: seq<Word16>): Dev
    requires |w| == 6
  {
    d.(atapi := d.atapi.(packet := Packed(w, 6)), phase := PacketHandle, cnt := 0, addr := addr)
  }

  lemma PackOne(w: seq<Word16>, k: nat)
    requires |w| == 6 && 0 < k <= 6
    ensures Packed(w, k - 1)[2 * k - 2 := Lo(w[k - 1])][2 * k - 1 := Hi(w[k - 1])] == Packed(w, k)
  {
  }

  /** A drive that has read k words and has the k-th on the bus. */
  ghost predicate Receiving(d: Dev, w: seq<Word16>, k: nat)
    requires |w| == 6
  {
    Valid(d) && d.phase.PacketRecv? && d.cnt == k <= 6 && d.atapi.packet == Packed(w, if k > 0 then k - 1 else 0)
  }

  lemma ReceiveOne(d: Dev, w: seq<Word16>, k: nat, i: Inp)
    requires |w| == 6 && Receiving(d, w, k) && (k > 0 ==> i.data == w[k - 1])
    ensures Next(d, i) == ReceivePacket(d, i.data)
    ensures var s := ReceivePacket(d, i.data);
            s.d == d.(atapi := d.atapi.(packet := Packed(w, k)), phase := s.d.phase, cnt := s.d.cnt, addr := s.d.addr)
  {
    hide Packed;
    if k > 0 {
      PackOne(w, k);
    }
  }

  lemma UnfoldPacketReads(base: Word16, k: nat)
    requires k <= 6
    ensures PacketReads(base, k)
         == if k == 6 then [Wr((base + 7) % 0x1_0000, 0)]
            else [Rd((base + 255) % 0x1_0000)] + PacketReads(base, k + 1)
  {
  }

  lemma Received(d: Dev, w: seq<Word16>, k: nat, i: Inp)
    requires |w| == 6 && Receiving(d, w, k) && (k > 0 ==> i.data == w[k - 1])
    ensures var s := ReceivePacket(d, i.data);
            if k < 6 then Receiving(s.d, w, k + 1) && s.op == Rd((d.base + 255) % 0x1_0000)
            else s.d.phase.PacketHandle? && s.d.cnt == 0 && s.op == Wr((d.base + 7) % 0x1_0000, 0)
  {
    hide Packed, Next;
    ReceiveOne(d, w, k, i);
  }

  lemma {:induction false} PacketFrom(d: Dev, w: seq<Word16>, k: nat, inputs: seq<Inp>)
    requires |w| == 6 && Receiving(d, w, k) && |inputs| == 7 - k
    requires forall j :: 0 <= j < |inputs| && 0 < k + j ==> inputs[j].data == w[k + j - 1]
    ensures var r := Run(d, inputs);
            && r.ops == PacketReads(d.base, k)
            && r.d == Handed(d, r.d.addr, w)
    decreases 6 - k
  {
    hide Next, Packed, Valid, PacketReads;
    ReceiveOne(d, w, k, inputs[0]);
    Received(d, w, k, inputs[0]);
    UnfoldPacketReads(d.base, k);
    var s := Next(d, inputs[0]);
    if k < 6 {
      PacketFrom(s.d, w, k + 1, inputs[1..]);
    } else {
      assert Run(s.d, inputs[1..]) == Ran(s.d, []);
    }
  }

  /** The six words of a packet, read one by one, are its twelve bytes, and
      the buffer pointer is reset before the reply. */
  lemma PacketArrives(d: Dev, w: seq<Word16>, inputs: seq<Inp>)
    requires Valid(d) && d.phase.PacketWaitReq? && |w| == 6
    requires |inputs| == 8 && inputs[0].request == 5
    requires forall j :: 0 <= j < 6 ==> inputs[j + 2].data == w[j]
    ensures var r := Run(d, inputs);
            && r.ops == PacketReads(d.base, 0)
            && r.d == Handed(d, r.d.addr, w)
  {
    var e := Next(d, inputs[0]).d;
    assert e.atapi.packet == Packed(w, 0);
    hide Next;
    PacketFrom(e, w, 0, inputs[1..]);
  }
}
