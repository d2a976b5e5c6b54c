/** Version 3 checkpoints of the IDE host: every saved field comes back, the
    image and the sector pointer included. */
module IdeCheckpoint {
  import opened Platform
  import opened Ide
  import opened Streams
  import M = IdeImages

  const MAGIC: nat := 0x4849_4445
  const NO_OFFSET: nat := 0xFFFF_FFFF_FFFF_FFFF

  /** What a checkpoint holds: the device, its bus pause, the debug flag, the
      image's name and path. The jitter delay is not saved. */
  datatype Saved = Saved(dev: Dev, cooldown: bool, debug: bool, name: seq<Byte>, path: seq<Byte>)

  datatype Result = Bad | Older | Refused | Truncated | Restored(s: Saved, rest: seq<Byte>)

  // ---- Codes ----

  function PhaseCode(p: Phase): nat {
    match p
    case Initial => 0 case Idle => 1 case GetResetDrive => 2 case ResetSet => 3 case GetCmd => 4 case DoCmd => 5
    case SendId => 6 case SetRegs => 7 case SetRegsSend => 8 case Read => 9 case ReadRegs => 10 case ReadSend => 11
    case ReadWaitReq => 12 case Write => 13 case WriteRegs => 14 case WriteWaitReq => 15 case WriteRecv => 16
    case PacketWaitReq => 17 case PacketRecv => 18 case PacketSend => 19 case PacketReadWaitReq => 20
    case PacketHandle => 21
  }

  const PHASES: seq<Phase> :=
    [Initial, Idle, GetResetDrive, ResetSet, GetCmd, DoCmd, SendId, SetRegs, SetRegsSend, Read, ReadRegs, ReadSend,
     ReadWaitReq, Write, WriteRegs, WriteWaitReq, WriteRecv, PacketWaitReq, PacketRecv, PacketSend,
     PacketReadWaitReq, PacketHandle]

  function PhaseOf(code: nat): Phase {
    if code < 22 then PHASES[code] else Initial
  }

  function Bit(b: bool): nat {
    if b then 1 else 0
  }

  // ---- The three fixed parts ----

  const HEAD_WIDTHS: seq<nat> := [4, 4, 1, 2, 4, 4, 1, 1, 2, 2, 4, 1, 1, 1, 1, 2, 1, 1, 2, 2, 2, 4, 4]
  const MIDDLE_WIDTHS: seq<nat> := [8, 4, 4, 4, 1, 1]
  const FLAG_WIDTHS: seq<nat> := [4, 1, 1, 1, 1, 1]
  const TAIL_WIDTHS: seq<nat> := [4, 4, 2, 1, 1, 1]

  function Head(d: Dev): seq<nat> {
    var r, v := d.regs, d.drive;
    [MAGIC, 3, d.id, d.base, PhaseCode(d.phase), PhaseCode(d.next),
     r.ioSize, r.error, r.sectorCount, r.sector, r.cylinder, r.head, r.drv, r.lba, r.cmd, r.pktIoSize, r.status,
     Bit(v.present), v.cylinders, v.heads, v.spt, v.totalSectors, v.spb]
  }

  /** The sector pointer as an offset into the image; none, or one that does
      not point into it, is all ones. */
  function Offset(d: Dev): nat {
    if d.words.Sector? && d.words.offset < |d.image| then d.words.offset else NO_OFFSET
  }

  function Middle(d: Dev): seq<nat> {
    [Offset(d), d.task.sector, d.task.sectorCount, d.task.cylinder, d.task.drvAddr, d.task.cmd]
  }

  function Flags(s: Saved): seq<nat> {
    [s.dev.cnt, s.dev.irqPending, Bit(s.cooldown), Bit(s.debug), Bit(s.dev.cdrom), s.dev.task.features]
  }

  function Tail(d: Dev): seq<nat> {
    var a := d.atapi;
    [a.lba, a.remaining, a.limit, a.key, a.asc, a.ascq]
  }

  function Words(id: seq<Word16>): (b: seq<Byte>)
    ensures |b| == 2 * |id|
  {
    if id == [] then [] else Le(id[0], 2) + Words(id[1..])
  }

  function UnWords(b: seq<Byte>): (id: seq<Word16>)
    ensures |id| == |b| / 2
  {
    if |b| < 2 then [] else [FromLe(b[..2]) % 0x1_0000] + UnWords(b[2..])
  }

  /** save. */
  function Save(s: Saved, f: M.File): seq<Byte> {
    var d := s.dev;
    Fields(HEAD_WIDTHS, Head(d)) + (Words(d.drive.id) + (M.SaveImage(d.image, s.path, f) + (Counted(4, s.name)
    + (Fields(MIDDLE_WIDTHS, Middle(d)) + (d.buf + (Fields(FLAG_WIDTHS, Flags(s)) + (d.atapi.packet
    + (Counted(8, d.atapi.data) + Fields(TAIL_WIDTHS, Tail(d))))))))))
  }

  // ---- Reading back ----

  function ReadBytes(s: seq<Byte>, n: nat): Read<seq<Byte>> {
    if |s| < n then Short else Got(s[..n], s[n..])
  }

  function Narrow(v: nat, unit: nat): (r: nat)
    requires unit > 0
    ensures r < unit
    ensures v < unit ==> r == v
  {
    if v < unit then v else 0
  }

  function B(v: nat): Byte { Narrow(v, 0x100) }
  function H(v: nat): Word16 { Narrow(v, 0x1_0000) }
  function W(v: nat): Word32 { Narrow(v, 0x1_0000_0000) }

  function RegsFrom(h: seq<nat>): Regs
    requires |h| == 23
  {
    Regs(B(h[6]), B(h[7]), H(h[8]), H(h[9]), W(h[10]), B(h[11]), B(h[12]), B(h[13]), B(h[14]), H(h[15]), B(h[16]))
  }

  function DriveFrom(h: seq<nat>, id: seq<Word16>): Drive
    requires |h| == 23
  {
    Drive(h[17] != 0, H(h[18]), H(h[19]), H(h[20]), W(h[21]), W(h[22]), id)
  }

  /** The pointer is taken back only if a whole sector is there. */
  function CursorFrom(offset: nat, size: nat): Cursor {
    if offset != NO_OFFSET && offset + 512 <= size then Sector(offset) else NoSector
  }

  datatype Parts = Parts(head: seq<nat>, id: seq<Byte>, image: M.Image, name: seq<Byte>, middle: seq<nat>,
                         buf: seq<Byte>, flags: seq<nat>, packet: seq<Byte>, data: seq<Byte>, tail: seq<nat>)

  predicate WholeParts(p: Parts) {
    |p.head| == 23 && |p.middle| == 6 && |p.flags| == 6 && |p.tail| == 6
  }

  /** The state the parts make, over what a checkpoint does not hold. */
  function Assemble(p: Parts, was: Dev): Saved
    requires WholeParts(p)
  {
    var h, m, f, t := p.head, p.middle, p.flags, p.tail;
    var task := Task(B(f[5]), W(m[2]), W(m[1]), W(m[3]), B(m[4]), B(m[5]));
    var atapi := Atapi(p.packet, p.data, W(t[0]), W(t[1]), H(t[2]), B(t[3]), B(t[4]), B(t[5]));
    var dev := Dev(was.rom, B(h[2]), H(h[3]), PhaseOf(h[4]), PhaseOf(h[5]), RegsFrom(h), DriveFrom(h, UnWords(p.id)),
                   p.image.bytes, CursorFrom(m[0], |p.image.bytes|), task, p.buf, f[0], B(f[1]), f[4] != 0, atapi,
                   was.addr);
    Saved(dev, f[2] != 0, f[3] != 0, p.name, p.image.path)
  }

  function PartsOf(s: Saved, image: M.Image): Parts {
    Parts(Head(s.dev), Words(s.dev.drive.id), image, s.name, Middle(s.dev), s.dev.buf, Flags(s),
          s.dev.atapi.packet, s.dev.atapi.data, Tail(s.dev))
  }

  /** load, for version 3. */
  function Load(in0: seq<Byte>, was: Dev, files: seq<Byte> -> M.File): Result {
    match ReadFields(in0, HEAD_WIDTHS)
    case Short => Truncated
    case Got(h, in1) =>
      if h[0] != MAGIC || h[1] < 1 || h[1] > 3 then Bad
      else if h[1] < 3 then Older
      else
        match ReadBytes(in1, 512)
        case Short => Truncated
        case Got(id, in2) =>
          match M.LoadImage(in2, files)
          case Refused => Refused
          case Truncated => Truncated
          case Loaded(image, in3) => LoadRest(in3, was, h, id, image)
  }

  function LoadRest(in3: seq<Byte>, was: Dev, h: seq<nat>, id: seq<Byte>, image: M.Image): Result
    requires |h| == 23
  {
    match ReadCounted(in3, 4)
    case Short => Truncated
    case Got(name, in4) =>
      match ReadFields(in4, MIDDLE_WIDTHS)
      case Short => Truncated
      case Got(m, in5) =>
        match ReadBytes(in5, 12)
        case Short => Truncated
        case Got(buf, in6) =>
          match ReadFields(in6, FLAG_WIDTHS)
          case Short => Truncated
          case Got(f, in7) => LoadPacket(in7, was, Parts(h, id, image, name, m, buf, f, [], [], []))
  }

  function LoadPacket(in7: seq<Byte>, was: Dev, p: Parts): Result
    requires |p.head| == 23 && |p.middle| == 6 && |p.flags| == 6
  {
    match ReadBytes(in7, 12)
    case Short => Truncated
    case Got(packet, in8) =>
      match ReadCounted(in8, 8)
      case Short => Truncated
      case Got(data, in9) =>
        match ReadFields(in9, TAIL_WIDTHS)
        case Short => Truncated
        case Got(t, rest) => Restored(Assemble(p.(packet := packet, data := data, tail := t), was), rest)
  }

  // ---- Round trip ----

  /** What can be saved: the sizes fit their fields. */
  ghost predicate Savable(s: Saved) {
    && Valid(s.dev)
    && s.dev.cnt < 0x8000_0000
    && |s.name| < 0x1_0000_0000 && |s.path| < 0x1_0000_0000
    && |s.dev.image| <= 512 * 0x1_0000_0000 && |s.dev.atapi.data| < 0x1_0000_0000_0000_0000
  }

  lemma Codes(p: Phase)
    ensures PhaseCode(p) < 22 && PhaseOf(PhaseCode(p)) == p
  {
  }

  lemma {:induction false} WordsRoundTrip(id: seq<Word16>)
    ensures UnWords(Words(id)) == id
  {
    if id != [] {
      FitsBytes(id[0]);
      LeRoundTrip(id[0], 2);
      WordsRoundTrip(id[1..]);
      assert Words(id)[..2] == Le(id[0], 2) && Words(id)[2..] == Words(id[1..]);
    }
  }

  lemma FieldsFit(s: Saved)
    requires Savable(s)
    ensures FitsAll(HEAD_WIDTHS, Head(s.dev)) && FitsAll(MIDDLE_WIDTHS, Middle(s.dev))
    ensures FitsAll(FLAG_WIDTHS, Flags(s)) && FitsAll(TAIL_WIDTHS, Tail(s.dev))
  {
    hide Fits, Valid, HEAD_WIDTHS, Head;
    HeadFits(s);
    WidthsFit();
  }

  lemma HeadFits(s: Saved)
    requires Savable(s)
    ensures FitsAll(HEAD_WIDTHS, Head(s.dev))
  {
    hide Fits, Valid, PhaseCode;
    Codes(s.dev.phase);
    Codes(s.dev.next);
    WidthsFit();
  }

  lemma WidthsFit()
    ensures forall v: nat :: v < 0x100 ==> Fits(v, 1)
    ensures forall v: nat :: v < 0x1_0000 ==> Fits(v, 2)
    ensures forall v: nat :: v < 0x1_0000_0000 ==> Fits(v, 4)
    ensures forall v: nat :: v < 0x1_0000_0000_0000_0000 ==> Fits(v, 8)
  {
    forall v: nat
      ensures v < 0x100 ==> Fits(v, 1)
      ensures v < 0x1_0000 ==> Fits(v, 2)
      ensures v < 0x1_0000_0000 ==> Fits(v, 4)
      ensures v < 0x1_0000_0000_0000_0000 ==> Fits(v, 8)
    {
      FitsBytes(v);
    }
  }

  lemma HeadRoundTrip(d: Dev, h: seq<nat>)
    requires h == Head(d)
    ensures B(h[2]) == d.id && H(h[3]) == d.base && PhaseOf(h[4]) == d.phase && PhaseOf(h[5]) == d.next
    ensures RegsFrom(h) == d.regs && DriveFrom(h, d.drive.id) == d.drive
  {
    hide PhaseCode, PhaseOf;
    Codes(d.phase);
    Codes(d.next);
  }

  lemma PointerRoundTrip(d: Dev)
    requires Valid(d) && |d.image| <= 512 * 0x1_0000_0000
    ensures CursorFrom(Offset(d), |d.image|) == d.words
  {
  }

  /** The state with the image a load found. */
  function Found(s: Saved, image: seq<Byte>, was: Dev): Saved {
    s.(dev := s.dev.(rom := was.rom, addr := was.addr, image := image))
  }

  lemma AssembleRoundTrip(s: Saved, image: M.Image, was: Dev)
    requires Savable(s) && |image.bytes| == |s.dev.image| && image.path == s.path
    ensures Assemble(PartsOf(s, image), was) == Found(s, image.bytes, was)
  {
    HeadRoundTrip(s.dev, Head(s.dev));
    PointerRoundTrip(s.dev);
    WordsRoundTrip(s.dev.drive.id);
    hide Head, RegsFrom, DriveFrom, PhaseOf, Words, UnWords, Valid, Offset, CursorFrom;
  }

  lemma BytesRoundTrip(b: seq<Byte>, rest: seq<Byte>)
    ensures ReadBytes(b + rest, |b|) == Got(b, rest)
  {
    assert (b + rest)[..|b|] == b && (b + rest)[|b|..] == rest;
  }

  lemma Assoc(a: seq<Byte>, b: seq<Byte>, c: seq<Byte>)
    ensures (a + b) + c == a + (b + c)
  {
  }

  /** The end of the stream: packet, its data, and the last record. */
  lemma PacketRoundTrip(s: Saved, was: Dev, p: Parts, rest: seq<Byte>)
    requires Savable(s) && |p.head| == 23 && |p.middle| == 6 && |p.flags| == 6
    ensures LoadPacket(PacketPart(s) + rest, was, p)
         == Restored(Assemble(p.(packet := s.dev.atapi.packet, data := s.dev.atapi.data, tail := Tail(s.dev)),
               was), rest)
  {
    FieldsFit(s);
    FitsBytes(|s.dev.atapi.data|);
    PacketSize(s);
    hide Assemble, Savable, Fields, ReadFields, Counted, ReadCounted, FitsAll, Fits, ReadBytes, Tail;
    var t := Fields(TAIL_WIDTHS, Tail(s.dev));
    var data := Counted(8, s.dev.atapi.data);
    Assoc(s.dev.atapi.packet, data + t, rest);
    Assoc(data, t, rest);
    BytesRoundTrip(s.dev.atapi.packet, data + (t + rest));
    ReadUndoesCounted(8, s.dev.atapi.data, t + rest);
    ReadUndoesFields(TAIL_WIDTHS, Tail(s.dev), rest);
  }

  lemma PacketSize(s: Saved)
    requires Savable(s)
    ensures |s.dev.atapi.packet| == 12 && |s.dev.buf| == 12 && |s.dev.drive.id| == 256
  {
  }

  function PacketPart(s: Saved): seq<Byte> {
    s.dev.atapi.packet + (Counted(8, s.dev.atapi.data) + Fields(TAIL_WIDTHS, Tail(s.dev)))
  }

  function RestPart(s: Saved): seq<Byte> {
    Counted(4, s.name) + (Fields(MIDDLE_WIDTHS, Middle(s.dev)) + (s.dev.buf + (Fields(FLAG_WIDTHS, Flags(s))
          + PacketPart(s))))
  }

  /** From the image's name on. */
  lemma RestRoundTrip(s: Saved, was: Dev, id: seq<Byte>, image: M.Image, rest: seq<Byte>)
    requires Savable(s)
    ensures LoadRest(RestPart(s) + rest, was, Head(s.dev), id, image)
         == Restored(Assemble(PartsOf(s, image).(id := id), was), rest)
  {
    FieldsFit(s);
    FitsBytes(|s.name|);
    PacketSize(s);
    var p := Parts(Head(s.dev), id, image, s.name, Middle(s.dev), s.dev.buf, Flags(s), [], [], []);
    PacketRoundTrip(s, was, p, rest);
    RestReads(s, was, id, image, rest, p);
  }

  lemma RestReads(s: Saved, was: Dev, id: seq<Byte>, image: M.Image, rest: seq<Byte>, p: Parts)
    requires FitsAll(MIDDLE_WIDTHS, Middle(s.dev)) && FitsAll(FLAG_WIDTHS, Flags(s)) && Fits(|s.name|, 4)
          && |s.dev.buf| == 12
    requires p == Parts(Head(s.dev), id, image, s.name, Middle(s.dev), s.dev.buf, Flags(s), [], [], [])
    ensures LoadRest(RestPart(s) + rest, was, Head(s.dev), id, image) == LoadPacket(PacketPart(s) + rest, was, p)
  {
    hide Assemble, Fields, ReadFields, Counted, ReadCounted, FitsAll, Fits, ReadBytes, PacketPart, LoadPacket;
    var f := Fields(FLAG_WIDTHS, Flags(s));
    var m := Fields(MIDDLE_WIDTHS, Middle(s.dev));
    var e := PacketPart(s);
    Assoc(Counted(4, s.name), m + (s.dev.buf + (f + e)), rest);
    Assoc(m, s.dev.buf + (f + e), rest);
    Assoc(s.dev.buf, f + e, rest);
    Assoc(f, e, rest);
    ReadUndoesCounted(4, s.name, m + (s.dev.buf + (f + (e + rest))));
    ReadUndoesFields(MIDDLE_WIDTHS, Middle(s.dev), s.dev.buf + (f + (e + rest)));
    BytesRoundTrip(s.dev.buf, f + (e + rest));
    ReadUndoesFields(FLAG_WIDTHS, Flags(s), e + rest);
  }

  /** A version 3 checkpoint loaded back: every saved field is restored, the
      sector pointer too, and the stream is used up exactly; the image is
      restored if and only if the disk file's clean sectors are unchanged. */
  lemma CheckpointRoundTrip(s: Saved, f: M.File, was: Dev, files: seq<Byte> -> M.File, rest: seq<Byte>)
    requires Savable(s)
    requires f.File? ==> f.mtime < 0x1_0000_0000_0000_0000
    requires M.Usable(f, s.dev.image) ==> files(s.path).File? && |files(s.path).bytes| == |s.dev.image|
    ensures var r := Load(Save(s, f) + rest, was, files);
            && r.Restored? && r.rest == rest
            && |r.s.dev.image| == |s.dev.image| && r.s == Found(s, r.s.dev.image, was)
            && (r.s.dev.image == s.dev.image
                <==> !M.Usable(f, s.dev.image) || M.CleanAgree(s.dev.image, f.bytes, files(s.path).bytes))
  {
    FieldsFit(s);
    PacketSize(s);
    SizesOf(s);
    M.ImageRoundTrip(s.dev.image, s.path, f, files, RestPart(s) + rest);
    var image := M.LoadImage(M.SaveImage(s.dev.image, s.path, f) + (RestPart(s) + rest), files).i;
    RestRoundTrip(s, was, Words(s.dev.drive.id), image, rest);
    AssembleRoundTrip(s, image, was);
    HeadReads(s, f, was, files, rest, image);
  }

  lemma SizesOf(s: Saved)
    requires Savable(s)
    ensures |s.path| < 0x1_0000_0000 && |s.dev.image| <= 512 * 0x1_0000_0000
  {
  }

  lemma HeadReads(s: Saved, f: M.File, was: Dev, files: seq<Byte> -> M.File, rest: seq<Byte>, image: M.Image)
    requires FitsAll(HEAD_WIDTHS, Head(s.dev)) && |s.dev.drive.id| == 256
    requires M.LoadImage(M.SaveImage(s.dev.image, s.path, f) + (RestPart(s) + rest), files) == M.Loaded(image,
          RestPart(s) + rest)
    ensures Load(Save(s, f) + rest, was, files)
         == LoadRest(RestPart(s) + rest, was, Head(s.dev), Words(s.dev.drive.id), image)
  {
    SaveIs(s, f);
    HeadStarts(s.dev);
    hide Fields, ReadFields, FitsAll, Fits, ReadBytes, RestPart, LoadRest, Words, Head, Save, M.SaveImage, M.LoadImage;
    var h := Fields(HEAD_WIDTHS, Head(s.dev));
    var id := Words(s.dev.drive.id);
    var i := M.SaveImage(s.dev.image, s.path, f);
    var e := RestPart(s);
    Assoc(h, id + (i + e), rest);
    Assoc(id, i + e, rest);
    Assoc(i, e, rest);
    ReadUndoesFields(HEAD_WIDTHS, Head(s.dev), id + (i + (e + rest)));
    BytesRoundTrip(id, i + (e + rest));
  }

  lemma HeadStarts(d: Dev)
    ensures |Head(d)| == 23 && Head(d)[0] == MAGIC && Head(d)[1] == 3
  {
  }

  lemma SaveIs(s: Saved, f: M.File)
    ensures Save(s, f)
         == Fields(HEAD_WIDTHS, Head(s.dev)) + (Words(s.dev.drive.id) + (M.SaveImage(s.dev.image, s.path, f)
               + RestPart(s)))
  {
    hide Fields, Words, M.SaveImage, Counted;
  }
}
