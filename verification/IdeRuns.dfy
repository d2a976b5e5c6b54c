/** Runs of the IDE host over the steps its bus allows, and the pieces every
    command's traffic is made of. */
module IdeRuns {
  import opened Platform
  import opened Ide

  datatype Ran = Ran(d: Dev, ops: seq<Op>)

  function Emit(op: Op): seq<Op> {
    if op.Quiet? then [] else [op]
  }

  function Run(d: Dev, inputs: seq<Inp>): (r: Ran)
    requires Valid(d)
    ensures Valid(r.d)
    decreases inputs
  {
    if inputs == [] then Ran(d, [])
    else
      var s := Next(d, inputs[0]);
      var r := Run(s.d, inputs[1..]);
      Ran(r.d, Emit(s.op) + r.ops)
  }

  lemma {:induction false} RunConcat(d: Dev, a: seq<Inp>, b: seq<Inp>)
    requires Valid(d)
    ensures Run(d, a + b) == Ran(Run(Run(d, a).d, b).d, Run(d, a).ops + Run(Run(d, a).d, b).ops)
    decreases a
  {
    hide Next, Valid;
    if a == [] {
      assert a + b == b;
    } else {
      var s := Next(d, a[0]);
      assert (a + b)[0] == a[0] && (a + b)[1..] == a[1..] + b;
      RunConcat(s.d, a[1..], b);
    }
  }

  /** The host asks for nothing, or for the data of the command under way. */
  predicate Patient(inputs: seq<Inp>) {
    forall i :: i in inputs ==> i.request == 0 || i.request == 5
  }

  /** The register block as it goes out, from word k on. */
  function BlockFrom(base: Word16, b: seq<Byte>, k: nat): (ops: seq<Op>)
    requires |b| == 12 && k <= 6
    ensures |ops| == 6 - k
    decreases 6 - k
  {
    if k == 6 then [] else [Wr((base + k) % 0x1_0000, Word(b[2 * k], b[2 * k + 1]))] + BlockFrom(base, b, k + 1)
  }

  lemma UnfoldBlock(base: Word16, b: seq<Byte>, k: nat)
    requires |b| == 12 && k <= 6
    ensures k < 6 ==>
      BlockFrom(base, b, k)
      == [Wr((base + k) % 0x1_0000, Word(b[2 * k], b[2 * k + 1]))] + BlockFrom(base, b, k + 1)
    ensures k == 6 ==> BlockFrom(base, b, k) == []
  {
  }

  /** Word j of a register block goes to register j. */
  lemma {:induction false} BlockWord(base: Word16, b: seq<Byte>, k: nat, j: nat)
    requires |b| == 12 && k <= j < 6
    ensures BlockFrom(base, b, k)[j - k] == Wr((base + j) % 0x1_0000, Word(b[2 * j], b[2 * j + 1]))
    decreases j - k
  {
    hide BlockFrom, Word;
    UnfoldBlock(base, b, k);
    if k < j {
      BlockWord(base, b, k + 1, j);
    }
  }

  /** The bytes written to the data port. */
  function Payload(base: Word16, ops: seq<Op>): seq<Byte> {
    if ops == [] then []
    else if ops[0].Wr? && ops[0].addr == (base + 255) % 0x1_0000 then
      [ops[0].data % 0x100, ops[0].data / 0x100] + Payload(base, ops[1..])
    else Payload(base, ops[1..])
  }

  lemma {:induction false} PayloadConcat(base: Word16, a: seq<Op>, b: seq<Op>)
    ensures Payload(base, a + b) == Payload(base, a) + Payload(base, b)
  {
    if a == [] {
      assert a + b == b;
    } else {
      assert (a + b)[0] == a[0] && (a + b)[1..] == a[1..] + b;
      PayloadConcat(base, a[1..], b);
    }
  }

  lemma {:induction false} PayloadOfBlock(base: Word16, b: seq<Byte>, k: nat)
    requires |b| == 12 && k <= 6
    ensures Payload(base, BlockFrom(base, b, k)) == []
    decreases 6 - k
  {
    if k < 6 {
      assert (base + k) % 0x1_0000 != (base + 255) % 0x1_0000;
      PayloadOfBlock(base, b, k + 1);
    }
  }

  // ---- The command block ----

  /** The taskfile as six words, and the registers they load. */
  datatype Taskfile = Taskfile(w: seq<Word16>)

  predicate Whole(t: Taskfile) {
    |t.w| == 6
  }

  function Pair(lo: int, hi: int, unit: int): int { lo + hi * unit }
  function Hi(w: Word16): Byte { w / 0x100 }
  function Lo(w: Word16): Byte { w % 0x100 }

  function Command(t: Taskfile): Byte
    requires Whole(t)
  {
    Hi(t.w[5])
  }

  /** The inputs that hand over a command: the request, its six words, and
      the step that decodes it. */
  predicate Handover(opening: seq<Inp>, t: Taskfile)
    requires Whole(t)
  {
    && |opening| == 8 && opening[0].request == 4
    && (forall k :: 0 <= k < 6 ==> opening[k + 1].data == t.w[k])
  }

  function Loaded(r: Regs, t: Taskfile): Regs
    requires Whole(t)
  {
    r.(sectorCount := Pair(Lo(t.w[1]), Lo(t.w[3]), 0x100), sector := Pair(Hi(t.w[1]), Hi(t.w[3]), 0x100),
       cylinder := Pair(t.w[2], t.w[4], 0x1_0000), head := Lo(t.w[5]) % 0x10, drv := Lo(t.w[5]) / 0x10 % 2,
       lba := Lo(t.w[5]) / 0x40 % 2)
  }

  /** The reads of a command's words, from word k on. */
  function Fetches(base: Word16, k: nat): (ops: seq<Op>)
    requires k <= 6
    ensures |ops| == 6 - k
    decreases 6 - k
  {
    if k == 6 then [] else [Rd((base + k) % 0x1_0000)] + Fetches(base, k + 1)
  }

  /** A device between commands, with its registers on a 16-word boundary. */
  ghost predicate Ready(d: Dev) {
    Valid(d) && d.phase.Idle? && d.base % 0x10 == 0
  }

  function TaskOf(t: Taskfile): Task
    requires Whole(t)
  {
    Task(Hi(t.w[0]), Pair(Lo(t.w[1]), Lo(t.w[3]), 0x100), Pair(Hi(t.w[1]), Hi(t.w[3]), 0x100),
         Pair(t.w[2], t.w[4], 0x1_0000), Lo(t.w[5]), Command(t))
  }

  function Decoded(d: Dev, t: Taskfile): Dev
    requires Whole(t)
  {
    d.(task := TaskOf(t), regs := Loaded(d.regs, t), addr := (d.base + 5) % 0x1_0000, phase := DoCmd)
  }

  lemma CommandSteps(d: Dev, i: Inp)
    requires Valid(d)
    ensures d.phase.Idle? && i.request == 4 ==> Next(d, i) == DoRead(d.(phase := GetCmd), Port(d, 0))
    ensures d.phase.GetCmd? ==> Next(d, i) == LoadCommand(d, i.data)
    ensures d.phase.DoCmd? ==> Next(d, i) == Silent(HandleCommand(d))
  {
  }

  function TaskAfter(task: Task, t: Taskfile, k: nat): Task
    requires Whole(t) && k <= 5
  {
    if k == 0 then task else LoadTask(TaskAfter(task, t, k - 1), k - 1, t.w[k - 1])
  }

  lemma AllLoaded(task: Task, t: Taskfile)
    requires Whole(t)
    ensures TaskAfter(task, t, 5).(drvAddr := Lo(t.w[5]), cmd := Hi(t.w[5])) == TaskOf(t)
  {
    var t1 := TaskAfter(task, t, 1);
    var t2 := TaskAfter(task, t, 2);
    var t3 := TaskAfter(task, t, 3);
    assert t3.cylinder == t.w[2] && t3.sector == Hi(t.w[1]) && t3.sectorCount == Lo(t.w[1]);
    var t4 := TaskAfter(task, t, 4);
    assert t4.sector == Pair(Hi(t.w[1]), Hi(t.w[3]), 0x100) && t4.sectorCount == Pair(Lo(t.w[1]), Lo(t.w[3]), 0x100);
    var t5 := TaskAfter(task, t, 5);
    assert t5.cylinder == Pair(t.w[2], t.w[4], 0x1_0000);
  }

  /** The device when k words of the command are in. */
  function Partly(d: Dev, t: Taskfile, k: nat): Dev
    requires Whole(t) && k <= 5
  {
    d.(phase := GetCmd, addr := (d.base + k) % 0x1_0000, task := TaskAfter(d.task, t, k))
  }

  lemma WordArrives(d: Dev, t: Taskfile, k: nat, i: Inp)
    requires Ready(d) && Whole(t) && k < 5 && i.data == t.w[k]
    ensures Valid(Partly(d, t, k))
    ensures Next(Partly(d, t, k), i) == Step(Partly(d, t, k + 1), Rd((d.base + k + 1) % 0x1_0000))
  {
    PartlyValid(d, t, k);
    hide Next, Valid;
    CommandSteps(Partly(d, t, k), i);
    Nibble(d.base, k);
  }

  lemma PartlyValid(d: Dev, t: Taskfile, k: nat)
    requires Ready(d) && Whole(t) && k <= 5
    ensures Valid(Partly(d, t, k))
  {
  }

  lemma Nibble(base: Word16, k: nat)
    requires base % 0x10 == 0 && k <= 5
    ensures (base + k) % 0x1_0000 == base + k && base + k + 1 < 0x1_0000
    ensures (base + k) % 0x10 == k
  {
  }

  lemma LastWord(d: Dev, t: Taskfile, i: Inp)
    requires Ready(d) && Whole(t) && i.data == t.w[5]
    ensures Valid(Partly(d, t, 5)) && Valid(Decoded(d, t))
    ensures Next(Partly(d, t, 5), i) == Silent(Decoded(d, t))
  {
    PartlyValid(d, t, 5);
    DecodedValid(d, t);
    hide Next, Valid, TaskAfter, LoadTask;
    AllLoaded(d.task, t);
    Nibble(d.base, 5);
    CommandSteps(Partly(d, t, 5), i);
    TakenUp(d.regs, t);
  }

  lemma DecodedValid(d: Dev, t: Taskfile)
    requires Ready(d) && Whole(t)
    ensures Valid(Decoded(d, t))
  {
    hide TaskOf;
  }

  lemma TakenUp(r: Regs, t: Taskfile)
    requires Whole(t)
    ensures TakeTask(r, TaskOf(t)) == Loaded(r, t)
  {
    PairLow(Lo(t.w[1]), Lo(t.w[3]));
    PairLow(Hi(t.w[1]), Hi(t.w[3]));
    hide Pair, Lo, Hi;
  }

  lemma PairLow(lo: Byte, hi: Byte)
    ensures 0 <= Pair(lo, hi, 0x100) < 0x1_0000 && Pair(lo, hi, 0x100) % 0x1_0000 == Pair(lo, hi, 0x100)
    ensures Pair(lo, hi, 0x100) % 0x100 == lo
  {
  }

  lemma {:induction false} WordsArrive(d: Dev, t: Taskfile, k: nat, inputs: seq<Inp>)
    requires Ready(d) && Whole(t) && k <= 5 && |inputs| == 7 - k
    requires forall j :: 0 <= j < 6 - k ==> inputs[j].data == t.w[k + j]
    ensures Valid(Partly(d, t, k)) && Valid(Decoded(d, t))
    ensures Run(Partly(d, t, k), inputs) == Ran(HandleCommand(Decoded(d, t)), Fetches(d.base, k + 1))
    decreases 5 - k
  {
    hide Next, Valid, Decoded, Partly, HandleCommand, LoadCommand;
    var rest := inputs[1..];
    if k < 5 {
      WordArrives(d, t, k, inputs[0]);
      WordsArrive(d, t, k + 1, rest);
    } else {
      LastWord(d, t, inputs[0]);
      DecodedPhase(d, t);
      CommandSteps(Decoded(d, t), rest[0]);
      assert Run(HandleCommand(Decoded(d, t)), rest[1..]).ops == [];
    }
  }

  lemma DecodedPhase(d: Dev, t: Taskfile)
    requires Whole(t)
    ensures Decoded(d, t).phase.DoCmd?
  {
  }

  /** A command handed over is read word by word and decoded. */
  lemma CommandArrives(d: Dev, opening: seq<Inp>, t: Taskfile)
    requires Ready(d) && Whole(t) && Handover(opening, t)
    ensures Valid(Decoded(d, t))
    ensures Run(d, opening) == Ran(HandleCommand(Decoded(d, t)), Fetches(d.base, 0))
  {
    hide Next, Decoded, HandleCommand, LoadCommand;
    CommandSteps(d, opening[0]);
    assert d.(phase := GetCmd, addr := d.base) == Partly(d, t, 0);
    WordsArrive(d, t, 0, opening[1..]);
  }

  /** Four bytes, the lowest first. */
  function Dword(b0: int, b1: int, b2: int, b3: int): int {
    b0 + 0x100 * b1 + 0x1_0000 * b2 + 0x100_0000 * b3
  }

  /** The guest reads its registers back from a block: each byte is in its
      place, and nothing is lost. */
  lemma BlockTellsRegs(r: Regs, cdrom: bool)
    requires r.head < 0x10 && r.lba < 2 && r.drv < 2
    ensures var b := Block(r, cdrom);
            && b[1] == r.error && b[11] == r.status
            && b[2] == r.sectorCount % 0x100 && b[3] == r.sector % 0x100
            && Dword(b[4], b[5], b[6], b[7]) == r.cylinder && Word(b[8], b[9]) == r.pktIoSize
            && b[10] == DriveByte(r)
  {
    DriveHead(r.lba, r.drv, r.head);
    FourBytes(r.cylinder);
    TwoBytes(r.pktIoSize);
    hide Or, Dword, Word, DriveByte;
  }

  function DriveByte(r: Regs): int {
    var lba: int, drv: int, head: int := r.lba, r.drv, r.head;
    0xA0 + 0x40 * lba + 0x10 * drv + head
  }

  lemma FourBytes(w: Word32)
    ensures Dword(w % 0x100, w / 0x100 % 0x100, w / 0x1_0000 % 0x100, w / 0x100_0000 % 0x100) == w
  {
    var a := w / 0x100;
    var b := a / 0x100;
    assert w / 0x1_0000 == b && w / 0x100_0000 == b / 0x100;
  }

  lemma TwoBytes(w: Word16)
    ensures Word(w % 0x100, w / 0x100 % 0x100) == w
  {
  }

  lemma DriveHead(lba: nat, drv: nat, head: Byte)
    requires lba < 2 && drv < 2 && head < 0x10
    ensures Or(Or(if lba != 0 then 0xE0 else 0xA0, if drv != 0 then 0x10 else 0), head) == 0xA0 + 0x40 * lba
          + 0x10 * drv + head
  {
    OrE0(head);
    OrF0(head);
    OrA0(head);
    OrB0(head);
    assert Or(0xE0, 0x10) == 0xF0 && Or(0xE0, 0) == 0xE0 && Or(0xA0, 0x10) == 0xB0 && Or(0xA0, 0) == 0xA0;
  }

  lemma OrE0(low: Byte)
    requires low < 0x10
    ensures Or(0xE0, low) == 0xE0 + low
  {
    var l := low as bv8;
    assert l < 0x10 && 0xE0 | l == 0xE0 + l;
  }

  lemma OrF0(low: Byte)
    requires low < 0x10
    ensures Or(0xF0, low) == 0xF0 + low
  {
    var l := low as bv8;
    assert l < 0x10 && 0xF0 | l == 0xF0 + l;
  }

  lemma OrA0(low: Byte)
    requires low < 0x10
    ensures Or(0xA0, low) == 0xA0 + low
  {
    var l := low as bv8;
    assert l < 0x10 && 0xA0 | l == 0xA0 + l;
  }

  lemma OrB0(low: Byte)
    requires low < 0x10
    ensures Or(0xB0, low) == 0xB0 + low
  {
    var l := low as bv8;
    assert l < 0x10 && 0xB0 | l == 0xB0 + l;
  }
}
