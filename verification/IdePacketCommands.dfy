/** Whole packet commands, from the guest's command block on: a READ, and what
    REQUEST SENSE finds after one. */
module IdePacketCommands {
  import opened Platform
  import opened Ide
  import opened IdeAddresses
  import opened IdeRuns
  import opened IdePackets
  import P = IdePackets
  import R = IdeReads

  // ---- From the command block to the packet ----

  /** The guest hands over PACKET, for the drive that is there, with no DMA. */
  predicate ForCd(d: Dev, t: Taskfile)
    requires Whole(t)
  {
    d.cdrom && d.drive.present && Lo(t.w[5]) / 0x10 % 2 == 0 && Command(t) == 0xA0 && Hi(t.w[0]) % 2 == 0
  }

  /** The byte count limit of a PACKET command; 0 asks for 16384. */
  function LimitOf(t: Taskfile): Word16
    requires Whole(t)
  {
    if t.w[2] != 0 then t.w[2] else 32 * 512
  }

  /** The drive's registers when it asks for the packet. */
  function AskRegs(d: Dev, t: Taskfile): Regs
    requires Whole(t)
  {
    Loaded(d.regs, t).(pktIoSize := 6, sectorCount := 1, error := 0, status := Or(RDY, DRQ))
  }

  /** The inputs of such a command up to its packet: the command block, the
      drive's register block, a wait of any length, and the six words. */
  datatype Opening = Opening(command: seq<Inp>, block: seq<Inp>, wait: seq<Inp>, packet: seq<Inp>)

  function Inputs(o: Opening): seq<Inp> {
    o.command + (o.block + (o.wait + o.packet))
  }

  predicate Opens(o: Opening, t: Taskfile, w: seq<Word16>)
    requires Whole(t) && |w| == 6
  {
    && Handover(o.command, t) && |o.block| == 8
    && (forall i :: i in o.wait ==> i.request == 0)
    && |o.packet| == 8 && o.packet[0].request == 5
    && (forall j :: 0 <= j < 6 ==> o.packet[j + 2].data == w[j])
  }

  /** All that is on the bus until the packet is in. */
  function OpeningOps(d: Dev, t: Taskfile): seq<Op>
    requires Whole(t)
  {
    Fetches(d.base, 0) + (BlockFrom(d.base, Block(AskRegs(d, t), true), 0) + PacketReads(d.base, 0))
  }

  /** The drive with the command taken up, in phase p. */
  ghost predicate TakenUpIn(d: Dev, t: Taskfile, e: Dev, p: Phase)
    requires Whole(t)
  {
    e == d.(task := e.task, regs := AskRegs(d, t), addr := e.addr, buf := e.buf, cnt := e.cnt, phase := p,
            next := PacketWaitReq, atapi := d.atapi.(limit := LimitOf(t)))
  }

  lemma CommandTaken(d: Dev, o: Opening, t: Taskfile, w: seq<Word16>)
    requires Ready(d) && Whole(t) && |w| == 6 && ForCd(d, t) && Opens(o, t, w)
    ensures var r := Run(d, o.command);
            TakenUpIn(d, t, r.d, SetRegs) && r.ops == Fetches(d.base, 0)
  {
    CommandArrives(d, o.command, t);
    PacketTaken(d, t);
  }

  lemma PacketTaken(d: Dev, t: Taskfile)
    requires Whole(t) && Valid(Decoded(d, t)) && ForCd(d, t)
    ensures Decoded(d, t).phase.DoCmd? && TakenUpIn(d, t, HandleCommand(Decoded(d, t)), SetRegs)
  {
    hide Or;
    LimitIs(t);
  }

  lemma LimitIs(t: Taskfile)
    requires Whole(t)
    ensures Pair(t.w[2], t.w[4], 0x1_0000) % 0x1_0000 == t.w[2]
  {
  }

  lemma RunUnfolds(d: Dev, inputs: seq<Inp>)
    requires Valid(d)
    ensures inputs == [] ==> Run(d, inputs) == Ran(d, [])
    ensures inputs != [] ==>
      var s := Next(d, inputs[0]);
      Run(d, inputs) == Ran(Run(s.d, inputs[1..]).d, Emit(s.op) + Run(s.d, inputs[1..]).ops)
  {
    hide Next, Valid;
  }

  /** The register block goes out whatever the host shows. */
  lemma {:induction false} BlockGoes(d: Dev, inputs: seq<Inp>)
    requires Valid(d) && d.phase.SetRegsSend? && |d.buf| == 12 && d.cnt <= 6 && |inputs| == 7 - d.cnt
    ensures var r := Run(d, inputs);
            r.d == d.(phase := d.next, cnt := 0, addr := r.d.addr) && r.ops == BlockFrom(d.base, d.buf, d.cnt)
    decreases 6 - d.cnt
  {
    hide Next, Valid, Word, Run, BlockFrom;
    SendsBlock(d, inputs[0]);
    UnfoldBlock(d.base, d.buf, d.cnt);
    var s := Next(d, inputs[0]);
    RunUnfolds(d, inputs);
    if d.cnt < 6 {
      BlockGoes(s.d, inputs[1..]);
    } else {
      RunUnfolds(s.d, inputs[1..]);
    }
  }

  lemma SendsBlock(d: Dev, i: Inp)
    requires Valid(d) && d.phase.SetRegsSend? && d.cnt <= 6
    ensures var s := Next(d, i);
            if d.cnt < 6 then
              && s.d == d.(cnt := d.cnt + 1, addr := s.d.addr)
              && s.op == Wr((d.base + d.cnt) % 0x1_0000, Word(d.buf[2 * d.cnt], d.buf[2 * d.cnt + 1]))
            else s.d == d.(phase := d.next, cnt := 0) && s.op == Quiet
  {
  }

  lemma StagesBlock(d: Dev, i: Inp)
    requires Valid(d) && d.phase.SetRegs? && d.cdrom
    ensures Next(d, i) == Silent(d.(buf := Block(d.regs, true), cnt := 0, phase := SetRegsSend))
  {
    hide Or, Block;
  }

  lemma BlockSent(d: Dev, e: Dev, t: Taskfile, inputs: seq<Inp>)
    requires Valid(e) && Whole(t) && d.cdrom && TakenUpIn(d, t, e, SetRegs) && |inputs| == 8
    ensures var r := Run(e, inputs);
            TakenUpIn(d, t, r.d, PacketWaitReq) && r.ops == BlockFrom(d.base, Block(AskRegs(d, t), true), 0)
  {
    hide Next, Valid, Block, BlockFrom;
    StagesBlock(e, inputs[0]);
    var s := Next(e, inputs[0]).d;
    BlockGoes(s, inputs[1..]);
  }

  lemma WaitsForData(d: Dev, i: Inp)
    requires Valid(d) && d.phase.PacketWaitReq? && i.request == 0
    ensures Next(d, i) == Silent(d)
  {
  }

  lemma {:induction false} WaitsOn(d: Dev, inputs: seq<Inp>)
    requires Valid(d) && d.phase.PacketWaitReq? && forall i :: i in inputs ==> i.request == 0
    ensures Run(d, inputs) == Ran(d, [])
    decreases inputs
  {
    hide Next, Valid;
    if inputs != [] {
      WaitsForData(d, inputs[0]);
      WaitsOn(d, inputs[1..]);
    }
  }

  /** A packet handed over: the drive has the twelve bytes and the limit of
      this command, and everything else as it was. */
  ghost predicate HandedOver(d: Dev, t: Taskfile, w: seq<Word16>, e: Dev)
    requires Whole(t) && |w| == 6
  {
    && InCdHandle(e) && Same(d, e) && e.rom == d.rom && e.regs == AskRegs(d, t)
    && e.atapi == d.atapi.(limit := LimitOf(t), packet := Packed(w, 6))
  }

  lemma PacketHandedOver(d: Dev, o: Opening, t: Taskfile, w: seq<Word16>)
    requires Ready(d) && Whole(t) && |w| == 6 && ForCd(d, t) && Opens(o, t, w)
    ensures var r := Run(d, Inputs(o));
            HandedOver(d, t, w, r.d) && r.ops == OpeningOps(d, t)
  {
    hide Next, Valid, Block, BlockFrom, Packed, PacketReads, AskRegs, Handover, LimitOf, Fetches, Run;
    CommandTaken(d, o, t, w);
    var e1 := Run(d, o.command).d;
    BlockSent(d, e1, t, o.block);
    var e2 := Run(e1, o.block).d;
    WaitsOn(e2, o.wait);
    PacketArrives(e2, w, o.packet);
    var r := Run(e2, o.packet);
    RunConcat(e2, o.wait, o.packet);
    assert [] + r.ops == r.ops;
    RunConcat(e1, o.block, o.wait + o.packet);
    RunConcat(d, o.command, o.block + (o.wait + o.packet));
    assert r.d == Handed(e2, r.d.addr, w);
  }

  // ---- A READ ----

  lemma {:induction false} PacketReadsEmpty(base: Word16, k: nat)
    requires k <= 6
    ensures Payload(base, PacketReads(base, k)) == [] && |PacketReads(base, k)| == 7 - k
    decreases 6 - k
  {
    if k < 6 {
      PacketReadsEmpty(base, k + 1);
    } else {
      assert (base + 7) % 0x1_0000 != (base + 255) % 0x1_0000;
    }
  }

  lemma OpeningEmpty(d: Dev, t: Taskfile)
    requires Whole(t)
    ensures Payload(d.base, OpeningOps(d, t)) == [] && |OpeningOps(d, t)| == 19
  {
    hide Block, AskRegs, BlockFrom, Payload, PacketReads, Fetches;
    var block := Block(AskRegs(d, t), true);
    R.NoPayload(d.base, 0);
    PayloadOfBlock(d.base, block, 0);
    PacketReadsEmpty(d.base, 0);
    PayloadConcat(d.base, BlockFrom(d.base, block, 0), PacketReads(d.base, 0));
    PayloadConcat(d.base, Fetches(d.base, 0), BlockFrom(d.base, block, 0) + PacketReads(d.base, 0));
  }

  lemma HandleStep(d: Dev, i: Inp)
    requires Valid(d) && d.phase.PacketHandle?
    ensures Next(d, i) == Silent(HandlePacket(d))
  {
    hide HandlePacket;
  }

  /** The step that carries out the packet, and those after it. */
  lemma Handles(d: Dev, t: Taskfile, w: seq<Word16>, e: Dev, inputs: seq<Inp>)
    requires Whole(t) && |w| == 6 && HandedOver(d, t, w, e) && inputs != []
    ensures Valid(e) && Run(e, inputs) == Run(HandlePacket(e), inputs[1..])
  {
    hide HandlePacket, Next, Packed, AskRegs;
    HandleStep(e, inputs[0]);
    var r := Run(HandlePacket(e), inputs[1..]);
    assert [] + r.ops == r.ops;
  }

  /** What a READ packet asks of the drive. */
  function Asking(d: Dev, t: Taskfile, w: seq<Word16>, lba: Word32, blocks: Word32): Atapi
    requires Whole(t) && |w| == 6
  {
    d.atapi.(limit := LimitOf(t), packet := Packed(w, 6), lba := lba, remaining := blocks)
  }

  function CdTraffic(d: Dev, t: Taskfile, w: seq<Word16>, lba: Word32, blocks: Word32): seq<Op>
    requires Whole(t) && |w| == 6
  {
    OpeningOps(d, t) + CdOps(d.base, d.image, Asking(d, t, w, lba, blocks), AskRegs(d, t))
  }

  /** READ(10) and READ(12) as a whole, from the command block on: at any time
      the bus has seen a beginning of the command's traffic. Once it is over,
      it has ended in success, with no block left to read, if and only if all
      the blocks are on the disc; and with room for a block in the limit, its
      data are those blocks, in as few data phases as the limit allows, each
      with its register block. */
  lemma CdReadCommand(d: Dev, o: Opening, t: Taskfile, w: seq<Word16>, lba: Word32, blocks: Word32, inputs: seq<Inp>)
    requires Ready(d) && Whole(t) && |w| == 6 && ForCd(d, t) && Opens(o, t, w)
    requires AsksFor(Packed(w, 6), lba, blocks) && inputs != [] && Patient(inputs)
    requires |d.image| < 0x1_0000_0000 * BLOCK
    ensures var a, run := Asking(d, t, w, lba, blocks), Run(d, Inputs(o) + inputs);
            var traffic := CdTraffic(d, t, w, lba, blocks);
            && run.ops <= traffic && run.d.image == d.image
            && (Success(CdEnd(d.image, a, AskRegs(d, t))) <==> OnDisc(d.image, a))
            && (run.d.phase.Idle? ==> run.ops == traffic && (run.d.atapi.remaining == 0 <==> OnDisc(d.image, a)))
            && (run.d.phase.Idle? && blocks > 0 && OnDisc(d.image, a) && LimitOf(t) >= BLOCK ==>
                  && Payload(d.base, run.ops) == d.image[lba * BLOCK..(lba + blocks) * BLOCK]
                  && |run.ops| == 19 + 1024 * blocks + 6 * CeilDiv(blocks, Most(LimitOf(t))) + 6)
    ensures var e := Run(d, Inputs(o)).d;
            && HandedOver(d, t, w, e)
            && (Run(d, Inputs(o) + inputs).d.phase.Idle?
                <==> Useful(HandlePacket(e), inputs[1..]) + 1 == CdWork(d.image, Asking(d, t, w, lba, blocks)))
  {
    hide *;
    SizeOfBlock();
    ReadyValid(d);
    PacketHandedOver(d, o, t, w);
    var e := Run(d, Inputs(o)).d;
    HandedParts(d, t, w, e);
    RunConcat(d, Inputs(o), inputs);
    Handles(d, t, w, e, inputs);
    PatientRest(inputs);
    AskingParts(d, t, w, lba, blocks);
    CdReadHandled(e, lba, blocks, inputs[1..]);
    CdTrafficIs(d, t, w, lba, blocks);
    var a, run := Asking(d, t, w, lba, blocks), Run(HandlePacket(e), inputs[1..]);
    OnDiscIs(d.image, a);
    Prefix(OpeningOps(d, t), run.ops, CdOps(d.base, d.image, a, AskRegs(d, t)));
    if run.d.phase.Idle? && blocks > 0 && OnDisc(d.image, a) && LimitOf(t) >= BLOCK {
      OpeningEmpty(d, t);
      PayloadConcat(d.base, OpeningOps(d, t), run.ops);
      CdReadSends(d.base, d.image, a, AskRegs(d, t));
    }
  }

  lemma Prefix<T>(x: seq<T>, p: seq<T>, q: seq<T>)
    requires p <= q
    ensures x + p <= x + q
  {
  }

  lemma ReadyValid(d: Dev)
    requires Ready(d)
    ensures Valid(d) && d.phase.Idle? && d.base % 0x10 == 0
  {
  }

  lemma PatientRest(inputs: seq<Inp>)
    requires Patient(inputs) && inputs != []
    ensures Patient(inputs[1..])
  {
  }

  lemma HandedParts(d: Dev, t: Taskfile, w: seq<Word16>, e: Dev)
    requires Whole(t) && |w| == 6 && HandedOver(d, t, w, e)
    ensures InCdHandle(e) && e.base == d.base && e.image == d.image && e.regs == AskRegs(d, t)
    ensures e.atapi.packet == Packed(w, 6) && e.atapi == d.atapi.(limit := LimitOf(t), packet := Packed(w, 6))
  {
  }

  lemma AskingParts(d: Dev, t: Taskfile, w: seq<Word16>, lba: Word32, blocks: Word32)
    requires Whole(t) && |w| == 6
    ensures var a := Asking(d, t, w, lba, blocks);
            && a == d.atapi.(limit := LimitOf(t), packet := Packed(w, 6)).(lba := lba, remaining := blocks)
            && a.limit == LimitOf(t) && a.lba == lba && a.remaining == blocks
  {
  }

  lemma CdTrafficIs(d: Dev, t: Taskfile, w: seq<Word16>, lba: Word32, blocks: Word32)
    requires Whole(t) && |w| == 6
    ensures CdTraffic(d, t, w, lba, blocks)
         == OpeningOps(d, t) + CdOps(d.base, d.image, Asking(d, t, w, lba, blocks), AskRegs(d, t))
  {
  }

  // ---- Where a READ stops ----

  /** What a packet command leaves for the next: the block it is at, those
      still to read, the limit, and the sense data. */
  datatype Stop = Stop(lba: Word32, remaining: Word32, limit: Word16, key: Byte, asc: Byte, ascq: Byte)

  /** Where a READ stops: past its last block, or at the first data phase that
      is not all on the disc. */
  function StopFrom(image: seq<Byte>, lba: Word32, remaining: Word32, limit: Word16): Stop
    decreases remaining
  {
    var n := Chunk(remaining, limit);
    if remaining == 0 then Stop(lba, 0, limit, 0, 0, 0)
    else if (lba + n) * BLOCK > |image| then Stop(lba, remaining, limit, 5, 0x21, 0)
    else StopFrom(image, (lba + n) % 0x1_0000_0000, remaining - n, limit)
  }

  function StopNow(a: Atapi): Stop {
    Stop(a.lba, a.remaining, a.limit, a.key, a.asc, a.ascq)
  }

  ghost function StopOf(d: Dev): Stop
    requires InCd(d)
  {
    if d.phase.Idle? || ((d.phase.SetRegs? || d.phase.SetRegsSend?) && d.next.Idle?) then StopNow(d.atapi)
    else StopFrom(d.image, d.atapi.lba, d.atapi.remaining, d.atapi.limit)
  }

  lemma BlocksStop(d: Dev)
    requires InCd(d) && d.phase.PacketReadWaitReq?
    ensures InCd(ReadBlocks(d)) && StopOf(ReadBlocks(d)) == StopOf(d)
  {
    hide Or, Block, Chunk, Trimmed, CdOps, CdLeft, CdWork, BlockFrom, WordsFrom;
    BlocksTake(d);
  }

  lemma StopStep(d: Dev, i: Inp)
    requires InCd(d) && (i.request == 0 || i.request == 5)
    ensures InCd(Next(d, i).d) && StopOf(Next(d, i).d) == StopOf(d)
  {
    hide Next, Valid, ReadBlocks, CdOps, BlockFrom, WordsFrom, CdLeft, CdWork, StopFrom, Block, Or, Has;
    CdTakesStep(d, i);
    NextInCd(d, i);
    if d.phase.PacketReadWaitReq? && i.request == 5 {
      BlocksStop(d);
    }
  }

  lemma {:induction false} StopRuns(d: Dev, inputs: seq<Inp>)
    requires InCd(d) && Patient(inputs)
    ensures InCd(Run(d, inputs).d) && StopOf(Run(d, inputs).d) == StopOf(d)
    decreases inputs
  {
    hide Next, StopOf, InCd;
    InCdValid(d);
    if inputs != [] {
      StopStep(d, inputs[0]);
      assert Patient(inputs[1..]);
      StopRuns(Next(d, inputs[0]).d, inputs[1..]);
    }
  }

  lemma InCdValid(d: Dev)
    requires InCd(d)
    ensures Valid(d) && d.cdrom
  {
    hide Valid;
  }

  lemma StopIdle(d: Dev)
    requires InCd(d) && d.phase.Idle?
    ensures StopOf(d) == StopNow(d.atapi)
  {
    hide Valid;
  }

  /** It stops with nothing left to read exactly when all is on the disc. */
  lemma {:induction false} StopLeft(image: seq<Byte>, a: Atapi)
    ensures StopFrom(image, a.lba, a.remaining, a.limit).remaining == CdLeft(image, a)
    decreases a.remaining
  {
    if a.remaining > 0 && InImage(image, a) {
      StopLeft(image, AfterPhase(a));
    }
  }

  /** A READ carried out stops there. */
  lemma ReadStops(d: Dev, lba: Word32, blocks: Word32)
    requires InCdHandle(d) && AsksFor(d.atapi.packet, lba, blocks)
    ensures InCd(HandlePacket(d)) && Same(d, HandlePacket(d))
    ensures StopOf(HandlePacket(d)) == StopFrom(d.image, lba, blocks, d.atapi.limit)
  {
    hide HandlePacket, ReadBlocks, StopFrom, CdOps, CdLeft, CdWork;
    ReadBegins(d, lba, blocks);
    ReadHandled(d, lba, blocks);
    PhaseBlind(Asked(d, lba, blocks));
    BlocksStop(Asked(d, lba, blocks).(phase := PacketReadWaitReq));
    hide Valid;
  }

  // ---- REQUEST SENSE after it ----

  /** The sense data for what a READ left. */
  function SenseBytes(s: Stop): seq<Byte> {
    [0x70, 0, s.key % 0x10, 0, 0, 0, 0, 10, 0, 0, 0, 0, s.asc, s.ascq, 0, 0, 0, 0]
  }

  /** What goes out once the sense data have: success if the READ left no
      blocks; or else that READ goes on, under the limit of this command, and
      ends in an error or sends blocks of the disc. */
  ghost predicate GoesOn(base: Word16, image: seq<Byte>, s: Stop, limit: Word16, r: Regs, ops: seq<Op>) {
    var n := Chunk(s.remaining, limit);
    if s.remaining == 0 then ops == BlockFrom(base, Block(FinishedRegs(r, 0, 0), true), 0)
    else if (s.lba + n) * BLOCK > |image| then ops == BlockFrom(base, Block(FinishedRegs(r, 5, 0), true), 0)
    else
      WordsFrom(base, Trimmed(image[s.lba * BLOCK..(s.lba + n) * BLOCK], limit), 0) <= ops
  }

  lemma CdGoesOn(base: Word16, image: seq<Byte>, a: Atapi, r: Regs)
    ensures GoesOn(base, image, StopNow(a), a.limit, r, CdOps(base, image, a, r))
  {
    hide BlockFrom, Block, FinishedRegs, WordsFrom, PacketRegs, Trimmed, Chunk;
  }

  lemma SenseHandled(d: Dev)
    requires InCdHandle(d) && d.atapi.packet[0] == 0x03
    ensures var s := HandlePacket(d);
            && InCd(s) && Same(d, s) && s.phase.PacketSend? && s.cnt == 0
            && s.atapi == d.atapi.(data := s.atapi.data, key := 0, asc := 0, ascq := 0)
            && s.atapi.data == Trimmed(SenseData(d), d.atapi.limit)
  {
    hide Or, Trimmed;
    SenseFits(d);
  }

  lemma SenseIs(d: Dev)
    requires Valid(d)
    ensures var all := SenseBytes(StopNow(d.atapi)); var n := d.atapi.packet[4];
            SenseData(d) == if n < 18 then all[..n] else all
  {
  }

  /** REQUEST SENSE with what a command before left still in the drive. */
  lemma SenseSends(d: Dev)
    requires InCdHandle(d) && d.atapi.packet[0] == 0x03
    ensures var s, n := HandlePacket(d), d.atapi.packet[4];
            var all := SenseBytes(StopNow(d.atapi));
            && InCd(s)
            && s.atapi.data == Trimmed(if n < 18 then all[..n] else all, d.atapi.limit)
            && exists ops ::
                 && Rest(s) == WordsFrom(d.base, s.atapi.data, 0) + (BlockFrom(d.base, Block(s.regs, true), 0) + ops)
                 && GoesOn(d.base, d.image, StopNow(d.atapi), d.atapi.limit, s.regs, ops)
  {
    hide HandlePacket, SenseData, SenseBytes, Trimmed, BlockFrom, Block, WordsFrom, CdOps, GoesOn, InCd, Valid;
    SenseHandled(d);
    SenseIs(d);
    var s := HandlePacket(d);
    CdGoesOn(s.base, s.image, s.atapi, s.regs);
    SameGoesOn(s.base, s.image, StopNow(s.atapi), StopNow(d.atapi), s.atapi.limit, s.regs,
               CdOps(s.base, s.image, s.atapi, s.regs));
    RestSending(s);
  }

  lemma RestSending(s: Dev)
    requires InCd(s) && s.phase.PacketSend? && s.cnt == 0
    ensures Rest(s) == WordsFrom(s.base, s.atapi.data, 0)
                       + (BlockFrom(s.base, Block(s.regs, true), 0) + CdOps(s.base, s.image, s.atapi, s.regs))
  {
    hide BlockFrom, Block, WordsFrom, CdOps, Valid;
  }

  lemma SameGoesOn(base: Word16, image: seq<Byte>, s: Stop, t: Stop, limit: Word16, r: Regs, ops: seq<Op>)
    requires GoesOn(base, image, s, limit, r, ops) && t.lba == s.lba && t.remaining == s.remaining
    ensures GoesOn(base, image, t, limit, r, ops)
  {
    hide BlockFrom, Block, FinishedRegs, WordsFrom, Trimmed, Chunk;
  }

  lemma TrimmedFits(data: seq<Byte>, limit: Word16)
    requires limit != 0
    ensures var t := Trimmed(data, limit); 2 * (|t| / 2 % 0x1_0000) == |t|
  {
  }

  lemma OthersSend(d: Dev)
    requires InCdHandle(d) && d.atapi.limit != 0 && d.atapi.packet[0] != 0x28 && d.atapi.packet[0] != 0xA8
    ensures var s := HandlePacket(d);
            && s.base == d.base && s.image == d.image && s.cdrom
            && (s.phase.PacketSend? || (s.phase.SetRegs? && s.next.Idle?))
            && (s.phase.PacketSend? ==> s.cnt == 0 && 2 * s.regs.pktIoSize == |s.atapi.data|)
  {
    hide Or, Trimmed, SenseData, Be16, Be32, PushBe32;
    forall data: seq<Byte>
      ensures var t := Trimmed(data, d.atapi.limit); 2 * (|t| / 2 % 0x1_0000) == |t|
    {
      TrimmedFits(data, d.atapi.limit);
    }
  }

  /** Any command other than a READ, with what one before left still in the
      drive: it completes and leaves that, or sends data and then goes on with
      the READ. */
  lemma OthersGoOn(d: Dev)
    requires InCdHandle(d) && d.atapi.limit != 0 && d.atapi.packet[0] != 0x28 && d.atapi.packet[0] != 0xA8
    ensures var s := HandlePacket(d);
            && InCd(s) && s.atapi.lba == d.atapi.lba && s.atapi.remaining == d.atapi.remaining
            && (s.phase.PacketSend? || (s.phase.SetRegs? && s.next.Idle?))
            && (s.phase.PacketSend? ==> exists ops ::
                  && Rest(s) == WordsFrom(d.base, s.atapi.data, 0) + (BlockFrom(d.base, Block(s.regs, true), 0) + ops)
                  && GoesOn(d.base, d.image, StopNow(d.atapi), d.atapi.limit, s.regs, ops))
  {
    hide HandlePacket, BlockFrom, Block, WordsFrom, CdOps, GoesOn;
    OthersSend(d);
    OthersKeepBlocks(d);
    var s := HandlePacket(d);
    if s.phase.PacketSend? {
      CdGoesOn(s.base, s.image, s.atapi, s.regs);
      SameGoesOn(s.base, s.image, StopNow(s.atapi), StopNow(d.atapi), s.atapi.limit, s.regs,
                 CdOps(s.base, s.image, s.atapi, s.regs));
      RestSending(s);
    }
  }

  /** The drive between a READ that is over and the next command. */
  lemma ReadOver(d: Dev, o: Opening, t: Taskfile, w: seq<Word16>, lba: Word32, blocks: Word32, inputs: seq<Inp>)
    requires Ready(d) && Whole(t) && |w| == 6 && ForCd(d, t) && Opens(o, t, w)
    requires AsksFor(Packed(w, 6), lba, blocks) && inputs != [] && Patient(inputs)
    requires Run(d, Inputs(o) + inputs).d.phase.Idle?
    ensures var f := Run(d, Inputs(o) + inputs).d;
            && Ready(f) && Same(d, f) && f.cdrom
            && StopNow(f.atapi) == StopFrom(d.image, lba, blocks, LimitOf(t))
  {
    hide *;
    ReadyValid(d);
    PacketHandedOver(d, o, t, w);
    var e := Run(d, Inputs(o)).d;
    HandedParts(d, t, w, e);
    HandedSame(d, t, w, e);
    RunConcat(d, Inputs(o), inputs);
    Handles(d, t, w, e, inputs);
    PatientRest(inputs);
    ReadStops(e, lba, blocks);
    var s := HandlePacket(e);
    StopRuns(s, inputs[1..]);
    ReadBegins(e, lba, blocks);
    CdRuns(s, inputs[1..]);
    var f := Run(s, inputs[1..]).d;
    StopIdle(f);
    InCdValid(f);
    SameParts(d, e, s, f);
    IsReady(f);
  }

  lemma HandedSame(d: Dev, t: Taskfile, w: seq<Word16>, e: Dev)
    requires Whole(t) && |w| == 6 && HandedOver(d, t, w, e)
    ensures Same(d, e) && e.atapi.limit == LimitOf(t)
  {
  }

  lemma SameParts(d: Dev, e: Dev, s: Dev, f: Dev)
    requires Same(d, e) && Same(e, s) && Same(s, f)
    ensures Same(d, f) && f.base == d.base && f.image == d.image && f.drive == d.drive
  {
  }

  lemma IsReady(d: Dev)
    requires Valid(d) && d.phase.Idle? && d.base % 0x10 == 0
    ensures Ready(d)
  {
  }

  lemma ForTheSame(d: Dev, f: Dev, t: Taskfile)
    requires Whole(t) && ForCd(d, t) && Same(d, f) && f.cdrom
    ensures ForCd(f, t)
  {
  }

  /** What the drive says of a READ. */
  ghost predicate SaysOf(e: Dev, image: seq<Byte>, stop: Stop, limit: Word16)
    requires InCdHandle(e)
  {
    var s, n := HandlePacket(e), e.atapi.packet[4];
    && InCd(s)
    && s.atapi.data == Trimmed(if n < 18 then SenseBytes(stop)[..n] else SenseBytes(stop), limit)
    && exists ops ::
         && Rest(s) == WordsFrom(e.base, s.atapi.data, 0) + (BlockFrom(e.base, Block(s.regs, true), 0) + ops)
         && GoesOn(e.base, image, stop, limit, s.regs, ops)
  }

  /** A READ, over in any way, and the next PACKET command, a REQUEST SENSE:
      its data tell how the READ ended; and then the blocks that the READ left
      decide, under the limit that the REQUEST SENSE came with, whether it
      ends in success, ends in an error, or sends blocks of the disc. */
  lemma SenseAfterRead(d: Dev, o: Opening, t: Taskfile, w: seq<Word16>, lba: Word32, blocks: Word32, inputs: seq<Inp>,
                       o': Opening, t': Taskfile, w': seq<Word16>)
    requires Ready(d) && Whole(t) && |w| == 6 && ForCd(d, t) && Opens(o, t, w)
    requires AsksFor(Packed(w, 6), lba, blocks) && inputs != [] && Patient(inputs)
    requires Run(d, Inputs(o) + inputs).d.phase.Idle? && |d.image| < 0x1_0000_0000 * BLOCK
    requires Whole(t') && |w'| == 6 && ForCd(d, t') && Opens(o', t', w') && Packed(w', 6)[0] == 0x03
    ensures var f := Run(d, Inputs(o) + inputs).d;
            var e, stop := Run(f, Inputs(o')).d, StopFrom(d.image, lba, blocks, LimitOf(t));
            && (stop.remaining == 0 <==> OnDisc(d.image, Asking(d, t, w, lba, blocks)))
            && InCdHandle(e) && SaysOf(e, d.image, stop, LimitOf(t'))
  {
    hide *;
    ReadyValid(d);
    ReadOver(d, o, t, w, lba, blocks, inputs);
    var f := Run(d, Inputs(o) + inputs).d;
    ReadyValid(f);
    ForTheSame(d, f, t');
    PacketHandedOver(f, o', t', w');
    var e := Run(f, Inputs(o')).d;
    HandedParts(f, t', w', e);
    SameImage(d, f);
    StopOfHanded(f, e, LimitOf(t'), Packed(w', 6));
    SenseSays(e, d.image, StopFrom(d.image, lba, blocks, LimitOf(t)), LimitOf(t'));
    var a := Asking(d, t, w, lba, blocks);
    AskingParts(d, t, w, lba, blocks);
    StopLeft(d.image, a);
    CdLeftIff(d.image, a);
  }

  lemma StopOfHanded(f: Dev, e: Dev, limit: Word16, packet: seq<Byte>)
    requires e.atapi == f.atapi.(limit := limit, packet := packet)
    ensures StopNow(e.atapi) == StopNow(f.atapi).(limit := limit) && e.atapi.limit == limit
  {
  }

  lemma SenseSays(e: Dev, image: seq<Byte>, stop: Stop, limit: Word16)
    requires InCdHandle(e) && e.atapi.packet[0] == 0x03 && e.image == image
    requires StopNow(e.atapi) == stop.(limit := limit) && e.atapi.limit == limit
    ensures SaysOf(e, image, stop, limit)
  {
    hide HandlePacket, Trimmed, BlockFrom, Block, WordsFrom, InCd, Valid, Rest;
    SenseSends(e);
    var s := HandlePacket(e);
    var ops :|
      && Rest(s) == WordsFrom(e.base, s.atapi.data, 0) + (BlockFrom(e.base, Block(s.regs, true), 0) + ops)
      && GoesOn(e.base, image, StopNow(e.atapi), limit, s.regs, ops);
    SameGoesOn(e.base, image, StopNow(e.atapi), stop, limit, s.regs, ops);
    assert SenseBytes(stop) == SenseBytes(StopNow(e.atapi));
  }

  /** The bytes that go out for a READ from where it stands: every data phase
      that is on the disc, up to the first that is not. */
  function Delivered(image: seq<Byte>, lba: Word32, remaining: Word32, limit: Word16): seq<Byte>
    decreases remaining
  {
    var n := Chunk(remaining, limit);
    if remaining == 0 || (lba + n) * BLOCK > |image| then []
    else
      Trimmed(image[lba * BLOCK..(lba + n) * BLOCK], limit)
      + Delivered(image, (lba + n) % 0x1_0000_0000, remaining - n, limit)
  }

  lemma {:induction false} DeliveredIs(base: Word16, image: seq<Byte>, a: Atapi, r: Regs)
    ensures Payload(base, CdOps(base, image, a, r)) == Delivered(image, a.lba, a.remaining, a.limit)
    decreases a.remaining
  {
    hide Payload, BlockFrom, Block, FinishedRegs, WordsFrom, PacketRegs, Trimmed, Chunk;
    PayloadOfBlock(base, Block(FinishedRegs(r, 0, 0), true), 0);
    PayloadOfBlock(base, Block(FinishedRegs(r, 5, 0), true), 0);
    if a.remaining > 0 && InImage(image, a) {
      OnePhase(base, image, a, r);
      DeliveredIs(base, image, AfterPhase(a), PacketRegs(r, |P.Phase(image, a)|));
    }
  }

  /** The whole of the data that a REQUEST SENSE carried out sends. */
  lemma SenseRuns(e: Dev, inputs: seq<Inp>)
    requires InCdHandle(e) && e.atapi.packet[0] == 0x03 && Patient(inputs)
    ensures InCd(HandlePacket(e))
    ensures var s, run, n := HandlePacket(e), Run(HandlePacket(e), inputs), e.atapi.packet[4];
            var stop := StopNow(e.atapi);
            run.d.phase.Idle? ==>
              Payload(e.base, run.ops)
              == Trimmed(if n < 18 then SenseBytes(stop)[..n] else SenseBytes(stop), e.atapi.limit)
                 + Delivered(e.image, e.atapi.lba, e.atapi.remaining, e.atapi.limit)
  {
    hide HandlePacket, SenseData, SenseBytes, Trimmed, BlockFrom, Block, WordsFrom, CdOps, Delivered, Run, Payload;
    hide Rest, Valid, Chunk;
    SenseHandled(e);
    SenseIs(e);
    var s := HandlePacket(e);
    CdRuns(s, inputs);
    RestSending(s);
    DeliveredIs(s.base, s.image, s.atapi, s.regs);
    PayloadSending(s);
    var run := Run(s, inputs);
    if run.d.phase.Idle? {
      CdOver(run.d);
      assert run.ops + [] == run.ops;
    }
  }

  lemma PayloadSending(s: Dev)
    requires InCd(s) && s.phase.PacketSend? && s.cnt == 0
    ensures var later := CdOps(s.base, s.image, s.atapi, s.regs);
            Payload(s.base, WordsFrom(s.base, s.atapi.data, 0) + (BlockFrom(s.base, Block(s.regs, true), 0) + later))
            == s.atapi.data + Payload(s.base, later)
  {
    hide Payload, BlockFrom, Block, WordsFrom, CdOps, Valid;
    var later, block := CdOps(s.base, s.image, s.atapi, s.regs), Block(s.regs, true);
    PayloadConcat(s.base, WordsFrom(s.base, s.atapi.data, 0), BlockFrom(s.base, block, 0) + later);
    PayloadConcat(s.base, BlockFrom(s.base, block, 0), later);
    PayloadOfBlock(s.base, block, 0);
    PayloadOfWords(s.base, s.atapi.data, 0);
  }

  /** The same runs to their end, as data: those of the REQUEST SENSE are the
      sense data, cut to their limit, and then whatever the READ still has on
      the disc in pieces of that limit. */
  lemma SenseThenBlocks(d: Dev, o: Opening, t: Taskfile, w: seq<Word16>, lba: Word32, blocks: Word32, inputs: seq<Inp>,
                        o': Opening, t': Taskfile, w': seq<Word16>, inputs': seq<Inp>)
    requires Ready(d) && Whole(t) && |w| == 6 && ForCd(d, t) && Opens(o, t, w)
    requires AsksFor(Packed(w, 6), lba, blocks) && inputs != [] && Patient(inputs)
    requires Run(d, Inputs(o) + inputs).d.phase.Idle?
    requires Whole(t') && |w'| == 6 && ForCd(d, t') && Opens(o', t', w') && Packed(w', 6)[0] == 0x03
    requires inputs' != [] && Patient(inputs')
    ensures var f := Run(d, Inputs(o) + inputs).d;
            var run, stop := Run(f, Inputs(o') + inputs'), StopFrom(d.image, lba, blocks, LimitOf(t));
            var n, all := Packed(w', 6)[4], SenseBytes(StopFrom(d.image, lba, blocks, LimitOf(t)));
            run.d.phase.Idle? ==>
              Payload(d.base, run.ops)
              == Trimmed(if n < 18 then all[..n] else all, LimitOf(t'))
                 + Delivered(d.image, stop.lba, stop.remaining, LimitOf(t'))
  {
    hide *;
    ReadyValid(d);
    ReadOver(d, o, t, w, lba, blocks, inputs);
    var f := Run(d, Inputs(o) + inputs).d;
    ReadyValid(f);
    ForTheSame(d, f, t');
    PacketHandedOver(f, o', t', w');
    var e := Run(f, Inputs(o')).d;
    HandedParts(f, t', w', e);
    SameImage(d, f);
    SameBase(d, f);
    StopOfHanded(f, e, LimitOf(t'), Packed(w', 6));
    RunConcat(f, Inputs(o'), inputs');
    Handles(f, t', w', e, inputs');
    PatientRest(inputs');
    SenseRuns(e, inputs'[1..]);
    OpeningEmpty(f, t');
    PayloadConcat(d.base, OpeningOps(f, t'), Run(HandlePacket(e), inputs'[1..]).ops);
    SameSense(StopFrom(d.image, lba, blocks, LimitOf(t)), StopNow(e.atapi), e.atapi);
  }

  lemma SameBase(d: Dev, f: Dev)
    requires Same(d, f)
    ensures f.base == d.base
  {
  }

  lemma SameSense(s: Stop, t: Stop, a: Atapi)
    requires t == StopNow(a) && t == s.(limit := a.limit)
    ensures SenseBytes(s) == SenseBytes(t) && |SenseBytes(s)| == 18 && a.lba == s.lba && a.remaining == s.remaining
  {
  }

  /** A disc of one block, of which a READ asks for eight with room for eight,
      and fails at once; then a REQUEST SENSE for all its data, to its end.
      With the same room it sends the sense data. With room for a block it
      sends the sense data and then the disc. */
  lemma SenseByLimit(d: Dev, o: Opening, t: Taskfile, w: seq<Word16>, inputs: seq<Inp>,
                     o': Opening, t': Taskfile, w': seq<Word16>, inputs': seq<Inp>)
    requires Ready(d) && Whole(t) && |w| == 6 && ForCd(d, t) && Opens(o, t, w) && |d.image| == BLOCK
    requires AsksFor(Packed(w, 6), 0, 8) && LimitOf(t) == 8 * BLOCK && inputs != [] && Patient(inputs)
    requires Run(d, Inputs(o) + inputs).d.phase.Idle?
    requires Whole(t') && |w'| == 6 && ForCd(d, t') && Opens(o', t', w') && Packed(w', 6)[0] == 0x03
    requires Packed(w', 6)[4] >= 18 && inputs' != [] && Patient(inputs')
    ensures var run := Run(Run(d, Inputs(o) + inputs).d, Inputs(o') + inputs');
            var sense := SenseBytes(Stop(0, 8, 8 * BLOCK, 5, 0x21, 0));
            && (run.d.phase.Idle? && LimitOf(t') == 8 * BLOCK ==> Payload(d.base, run.ops) == sense)
            && (run.d.phase.Idle? && LimitOf(t') == BLOCK ==> Payload(d.base, run.ops) == sense + d.image)
  {
    hide *;
    SenseThenBlocks(d, o, t, w, 0, 8, inputs, o', t', w', inputs');
    OneBlockDisc(d.image);
    var sense := SenseBytes(Stop(0, 8, 8 * BLOCK, 5, 0x21, 0));
    assert sense + [] == sense;
  }

  lemma OneBlockDisc(image: seq<Byte>)
    requires |image| == BLOCK
    ensures StopFrom(image, 0, 8, 8 * BLOCK) == Stop(0, 8, 8 * BLOCK, 5, 0x21, 0)
    ensures Delivered(image, 0, 8, 8 * BLOCK) == [] && Delivered(image, 0, 8, BLOCK) == image
    ensures var sense := SenseBytes(Stop(0, 8, 8 * BLOCK, 5, 0x21, 0));
            Trimmed(sense, 8 * BLOCK) == sense == Trimmed(sense, BLOCK)
  {
    hide Trimmed, Delivered;
    SmallChunks();
    WholeFits(image, BLOCK);
    WholeFits(SenseBytes(Stop(0, 8, 8 * BLOCK, 5, 0x21, 0)), BLOCK);
    WholeFits(SenseBytes(Stop(0, 8, 8 * BLOCK, 5, 0x21, 0)), 8 * BLOCK);
    hide Chunk;
    OneBlockDelivered(image);
  }

  lemma SmallChunks()
    ensures Chunk(8, BLOCK) == Chunk(7, BLOCK) == 1 && Chunk(8, 8 * BLOCK) == 8
  {
  }

  lemma WholeFits(data: seq<Byte>, limit: nat)
    requires |data| % 2 == 0 && |data| <= limit
    ensures Trimmed(data, limit) == data
  {
  }

  lemma OneBlockDelivered(image: seq<Byte>)
    requires |image| == BLOCK && Trimmed(image, BLOCK) == image
    ensures Delivered(image, 0, 8, 8 * BLOCK) == [] && Delivered(image, 0, 8, BLOCK) == image
  {
    hide Trimmed, Chunk;
    SmallChunks();
    assert image[0..BLOCK] == image && image + [] == image;
    assert Delivered(image, 1, 7, BLOCK) == [];
  }
}
