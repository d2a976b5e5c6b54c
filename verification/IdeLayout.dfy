/** Where a version 3 checkpoint of the IDE host keeps what: numbers of so many
    bytes, the lowest first, at fixed places. */
module IdeLayout {
  import opened Platform
  import opened Ide
  import opened Streams
  import opened IdeCheckpoint
  import M = IdeImages

  /** The number in so many bytes from a place on. */
  function Number(b: seq<Byte>, at: nat, width: nat): nat
    requires at + width <= |b|
    decreases width
  {
    if width == 0 then 0 else b[at] + 0x100 * Number(b, at + 1, width - 1)
  }

  lemma {:induction false} NumberIsFromLe(b: seq<Byte>, at: nat, width: nat)
    requires at + width <= |b|
    ensures Number(b, at, width) == FromLe(b[at..at + width])
    decreases width
  {
    if width > 0 {
      NumberIsFromLe(b, at + 1, width - 1);
      assert b[at..at + width][1..] == b[at + 1..at + 1 + (width - 1)];
    }
  }

  /** The bytes before field k of a record. */
  function Place(widths: seq<nat>, k: nat): nat
    requires k <= |widths|
  {
    if k == 0 then 0 else widths[0] + Place(widths[1..], k - 1)
  }

  lemma {:induction false} PlaceStep(widths: seq<nat>, k: nat)
    requires k < |widths|
    ensures Place(widths, k + 1) == Place(widths, k) + widths[k]
    decreases k
  {
    if k > 0 {
      PlaceStep(widths[1..], k - 1);
    }
  }

  /** Every field stands at its place, whatever is around the record. */
  lemma {:induction false} FieldStands(b: seq<Byte>, at: nat, widths: seq<nat>, values: seq<nat>, k: nat)
    requires FitsAll(widths, values) && k < |widths|
    requires at + |Fields(widths, values)| <= |b| && b[at..at + |Fields(widths, values)|] == Fields(widths, values)
    ensures at + Place(widths, k) + widths[k] <= |b|
    ensures Number(b, at + Place(widths, k), widths[k]) == values[k]
    decreases k
  {
    var first, later := Le(values[0], widths[0]), Fields(widths[1..], values[1..]);
    assert Fields(widths, values) == first + later;
    if k == 0 {
      LeRoundTrip(values[0], widths[0]);
      NumberIsFromLe(b, at, widths[0]);
      assert b[at..at + widths[0]] == (first + later)[..widths[0]];
    } else {
      var all := b[at..at + |first + later|];
      assert b[at + widths[0]..at + widths[0] + |later|] == all[widths[0]..];
      FieldStands(b, at + widths[0], widths[1..], values[1..], k - 1);
    }
  }

  lemma {:induction false} FieldsSize(widths: seq<nat>, values: seq<nat>)
    requires |widths| == |values|
    ensures |Fields(widths, values)| == Place(widths, |widths|)
    decreases widths
  {
    if widths != [] {
      FieldsSize(widths[1..], values[1..]);
    }
  }

  // ---- The record at the beginning ----

  predicate HeadLike(w: seq<nat>) {
    FirstHalf(w) && SecondHalf(w)
  }

  predicate FirstHalf(w: seq<nat>) {
    && |w| == 23
    && w[0] == 4 && w[1] == 4 && w[2] == 1 && w[3] == 2 && w[4] == 4 && w[5] == 4 && w[6] == 1 && w[7] == 1
    && w[8] == 2 && w[9] == 2 && w[10] == 4 && w[11] == 1
  }

  predicate SecondHalf(w: seq<nat>) {
    && |w| == 23
    && w[12] == 1 && w[13] == 1 && w[14] == 1 && w[15] == 2 && w[16] == 1 && w[17] == 1
    && w[18] == 2 && w[19] == 2 && w[20] == 2 && w[21] == 4 && w[22] == 4
  }

  lemma HeadWidths()
    ensures HeadLike(HEAD_WIDTHS)
  {
    FirstWidths();
    SecondWidths();
    hide FirstHalf, SecondHalf;
  }

  lemma FirstWidths()
    ensures FirstHalf(HEAD_WIDTHS)
  {
  }

  lemma SecondWidths()
    ensures SecondHalf(HEAD_WIDTHS)
  {
  }

  lemma FirstPlaces(w: seq<nat>)
    requires HeadLike(w)
    ensures && Place(w, 0) == 0 && Place(w, 1) == 4 && Place(w, 2) == 8 && Place(w, 3) == 9 && Place(w, 4) == 11
            && Place(w, 5) == 15
            && Place(w, 6) == 19 && Place(w, 7) == 20 && Place(w, 8) == 21 && Place(w, 9) == 23 && Place(w, 10) == 25
            && Place(w, 11) == 29 && Place(w, 12) == 30
  {
    assert Place(w, 0) == 0;
    hide Place;
    PlaceStep(w, 0); PlaceStep(w, 1); PlaceStep(w, 2); PlaceStep(w, 3); PlaceStep(w, 4); PlaceStep(w, 5);
    PlaceStep(w, 6); PlaceStep(w, 7); PlaceStep(w, 8); PlaceStep(w, 9); PlaceStep(w, 10); PlaceStep(w, 11);
  }

  lemma LastPlaces(w: seq<nat>)
    requires HeadLike(w)
    ensures && Place(w, 12) == 30 && Place(w, 13) == 31 && Place(w, 14) == 32 && Place(w, 15) == 33
            && Place(w, 16) == 35
            && Place(w, 17) == 36 && Place(w, 18) == 37 && Place(w, 19) == 39 && Place(w, 20) == 41
            && Place(w, 21) == 43 && Place(w, 22) == 47 && Place(w, 23) == 51
  {
    FirstPlaces(w);
    hide Place;
    PlaceStep(w, 12); PlaceStep(w, 13); PlaceStep(w, 14); PlaceStep(w, 15); PlaceStep(w, 16); PlaceStep(w, 17);
    PlaceStep(w, 18); PlaceStep(w, 19); PlaceStep(w, 20); PlaceStep(w, 21); PlaceStep(w, 22);
  }

  ghost predicate Stands(b: seq<Byte>, at: nat, widths: seq<nat>, values: seq<nat>) {
    && |widths| == |values|
    && (forall k :: 0 <= k < |widths| ==>
          && at + Place(widths, k) + widths[k] <= |b|
          && Number(b, at + Place(widths, k), widths[k]) == values[k])
  }

  /** A record that starts at a place, with the rest of the stream after it. */
  lemma RecordStands(b: seq<Byte>, at: nat, widths: seq<nat>, values: seq<nat>, after: seq<Byte>)
    requires FitsAll(widths, values) && |widths| == |values|
    requires at <= |b| && b[at..] == Fields(widths, values) + after
    ensures Stands(b, at, widths, values)
    ensures at + Place(widths, |widths|) <= |b| && b[at + Place(widths, |widths|)..] == after
  {
    hide Number, Place, Fields, FitsAll;
    Following(b, at, Fields(widths, values), after);
    FieldsSize(widths, values);
    forall k | 0 <= k < |widths|
      ensures at + Place(widths, k) + widths[k] <= |b|
      ensures Number(b, at + Place(widths, k), widths[k]) == values[k]
    {
      FieldStands(b, at, widths, values, k);
    }
  }

  lemma Following(b: seq<Byte>, at: nat, x: seq<Byte>, after: seq<Byte>)
    requires at <= |b| && b[at..] == x + after
    ensures at + |x| <= |b| && b[at..at + |x|] == x && b[at + |x|..] == after
  {
    assert b[at..at + |x|] == b[at..][..|x|];
    assert b[at + |x|..] == b[at..][|x|..];
  }

  /** A number and, after it, what it counts. */
  lemma NumberStands(b: seq<Byte>, at: nat, v: nat, width: nat, after: seq<Byte>)
    requires Fits(v, width) && at <= |b| && b[at..] == Le(v, width) + after
    ensures at + width <= |b| && Number(b, at, width) == v && b[at + width..] == after
  {
    Following(b, at, Le(v, width), after);
    LeRoundTrip(v, width);
    NumberIsFromLe(b, at, width);
  }

  lemma CountedStands(b: seq<Byte>, at: nat, width: nat, x: seq<Byte>, after: seq<Byte>)
    requires Fits(|x|, width) && at <= |b| && b[at..] == Counted(width, x) + after
    ensures at + width + |x| <= |b| && Number(b, at, width) == |x|
    ensures b[at + width..at + width + |x|] == x && b[at + width + |x|..] == after
  {
    hide Number, Fits;
    Assoc(Le(|x|, width), x, after);
    NumberStands(b, at, |x|, width, x + after);
    Following(b, at + width, x, after);
  }

  /** Identity, phases and registers, at the beginning of the stream. */
  predicate RegsAt(b: seq<Byte>, d: Dev)
    requires 51 <= |b|
  {
    && Number(b, 0, 4) == 0x4849_4445 && Number(b, 4, 4) == 3 && Number(b, 8, 1) == d.id && Number(b, 9, 2) == d.base
    && Number(b, 11, 4) < 22 && PHASES[Number(b, 11, 4)] == d.phase
    && Number(b, 15, 4) < 22 && PHASES[Number(b, 15, 4)] == d.next
    && Number(b, 19, 1) == d.regs.ioSize && Number(b, 20, 1) == d.regs.error
    && Number(b, 21, 2) == d.regs.sectorCount && Number(b, 23, 2) == d.regs.sector
    && Number(b, 25, 4) == d.regs.cylinder && Number(b, 29, 1) == d.regs.head && Number(b, 30, 1) == d.regs.drv
    && Number(b, 31, 1) == d.regs.lba && Number(b, 32, 1) == d.regs.cmd && Number(b, 33, 2) == d.regs.pktIoSize
    && Number(b, 35, 1) == d.regs.status
  }

  predicate DriveAt(b: seq<Byte>, v: Drive)
    requires 51 <= |b|
  {
    && (Number(b, 36, 1) == 1 <==> v.present) && (Number(b, 36, 1) == 0 <==> !v.present)
    && Number(b, 37, 2) == v.cylinders && Number(b, 39, 2) == v.heads && Number(b, 41, 2) == v.spt
    && Number(b, 43, 4) == v.totalSectors && Number(b, 47, 4) == v.spb
  }

  lemma HeadStands(b: seq<Byte>, d: Dev, w: seq<nat>, h: seq<nat>)
    requires HeadLike(w) && h == Head(d) && Stands(b, 0, w, h)
    ensures 51 <= |b| && RegsAt(b, d) && DriveAt(b, d.drive)
  {
    FirstPlaces(w);
    LastPlaces(w);
    HeadStart(d, h);
    HeadRegs(d, h);
    HeadDrive(d, h);
    Codes(d.phase);
    Codes(d.next);
    hide Place, Number, Head, PhaseCode, HeadLike;
  }

  lemma HeadStart(d: Dev, h: seq<nat>)
    requires h == Head(d)
    ensures |h| == 23
    ensures && h[0] == 0x4849_4445 && h[1] == 3 && h[2] == d.id && h[3] == d.base && h[4] == PhaseCode(d.phase)
            && h[5] == PhaseCode(d.next) && h[6] == d.regs.ioSize && h[7] == d.regs.error
  {
    hide PhaseCode;
  }

  lemma HeadRegs(d: Dev, h: seq<nat>)
    requires h == Head(d)
    ensures |h| == 23
    ensures && h[8] == d.regs.sectorCount && h[9] == d.regs.sector && h[10] == d.regs.cylinder
            && h[11] == d.regs.head && h[12] == d.regs.drv && h[13] == d.regs.lba && h[14] == d.regs.cmd
            && h[15] == d.regs.pktIoSize && h[16] == d.regs.status
  {
    hide PhaseCode;
  }

  lemma HeadDrive(d: Dev, h: seq<nat>)
    requires h == Head(d)
    ensures |h| == 23
    ensures && h[17] == Bit(d.drive.present) && h[18] == d.drive.cylinders && h[19] == d.drive.heads
            && h[20] == d.drive.spt && h[21] == d.drive.totalSectors && h[22] == d.drive.spb
  {
    hide PhaseCode;
  }

  // ---- What follows the image ----

  lemma SixPlaces(w: seq<nat>)
    requires |w| == 6
    ensures Place(w, 0) == 0 && Place(w, 1) == w[0] && Place(w, 2) == w[0] + w[1] && Place(w, 3) == w[0] + w[1] + w[2]
    ensures Place(w, 4) == w[0] + w[1] + w[2] + w[3] && Place(w, 5) == w[0] + w[1] + w[2] + w[3] + w[4]
    ensures Place(w, 6) == w[0] + w[1] + w[2] + w[3] + w[4] + w[5]
  {
    assert Place(w, 0) == 0;
    hide Place;
    PlaceStep(w, 0);
    PlaceStep(w, 1);
    PlaceStep(w, 2);
    PlaceStep(w, 3);
    PlaceStep(w, 4);
    PlaceStep(w, 5);
  }

  /** The task under way, from the sector pointer on: where in the image it
      points, all ones for nowhere. */
  predicate TaskAt(b: seq<Byte>, at: nat, d: Dev)
    requires at + 22 <= |b|
  {
    && Number(b, at, 8) == (if d.words.Sector? then d.words.offset else 0xFFFF_FFFF_FFFF_FFFF)
    && Number(b, at + 8, 4) == d.task.sector && Number(b, at + 12, 4) == d.task.sectorCount
    && Number(b, at + 16, 4) == d.task.cylinder && Number(b, at + 20, 1) == d.task.drvAddr
    && Number(b, at + 21, 1) == d.task.cmd
  }

  predicate FlagsAt(b: seq<Byte>, at: nat, s: Saved)
    requires at + 9 <= |b|
  {
    && Number(b, at, 4) == s.dev.cnt && Number(b, at + 4, 1) == s.dev.irqPending
    && (Number(b, at + 5, 1) == if s.cooldown then 1 else 0) && (Number(b, at + 6, 1) == if s.debug then 1 else 0)
    && (Number(b, at + 7, 1) == if s.dev.cdrom then 1 else 0) && Number(b, at + 8, 1) == s.dev.task.features
  }

  predicate AtapiAt(b: seq<Byte>, at: nat, a: Atapi)
    requires at + 13 <= |b|
  {
    && Number(b, at, 4) == a.lba && Number(b, at + 4, 4) == a.remaining && Number(b, at + 8, 2) == a.limit
    && Number(b, at + 10, 1) == a.key && Number(b, at + 11, 1) == a.asc && Number(b, at + 12, 1) == a.ascq
  }

  lemma TaskStands(b: seq<Byte>, at: nat, d: Dev)
    requires Valid(d) && Stands(b, at, MIDDLE_WIDTHS, Middle(d))
    ensures at + 22 <= |b| && TaskAt(b, at, d) && Place(MIDDLE_WIDTHS, 6) == 22
  {
    PointsInside(d);
    SixPlaces(MIDDLE_WIDTHS);
    hide Number, Place, Offset, Valid;
  }

  lemma PointsInside(d: Dev)
    requires Valid(d)
    ensures Offset(d) == if d.words.Sector? then d.words.offset else 0xFFFF_FFFF_FFFF_FFFF
  {
  }

  lemma FlagsStand(b: seq<Byte>, at: nat, s: Saved)
    requires Stands(b, at, FLAG_WIDTHS, Flags(s))
    ensures at + 9 <= |b| && FlagsAt(b, at, s) && Place(FLAG_WIDTHS, 6) == 9
  {
    SixPlaces(FLAG_WIDTHS);
    hide Number, Place;
  }

  lemma AtapiStands(b: seq<Byte>, at: nat, d: Dev)
    requires Stands(b, at, TAIL_WIDTHS, Tail(d))
    ensures at + 13 <= |b| && AtapiAt(b, at, d.atapi) && Place(TAIL_WIDTHS, 6) == 13
  {
    SixPlaces(TAIL_WIDTHS);
    hide Number, Place;
  }

  // ---- IDENTIFY words and the image ----

  predicate IdAt(b: seq<Byte>, at: nat, id: seq<Word16>)
    requires at + 2 * |id| <= |b|
  {
    forall k :: 0 <= k < |id| ==> Number(b, at + 2 * k, 2) == id[k]
  }

  lemma {:induction false} WordsStand(b: seq<Byte>, at: nat, id: seq<Word16>, after: seq<Byte>)
    requires at <= |b| && b[at..] == Words(id) + after
    ensures at + 2 * |id| <= |b| && IdAt(b, at, id) && b[at + 2 * |id|..] == after
    decreases id
  {
    hide Number;
    if id == [] {
      assert [] + after == after;
    } else {
      WidthsFit();
      hide Fits;
      Assoc(Le(id[0], 2), Words(id[1..]), after);
      NumberStands(b, at, id[0], 2, Words(id[1..]) + after);
      WordsStand(b, at + 2, id[1..], after);
      forall k | 0 <= k < |id| ensures Number(b, at + 2 * k, 2) == id[k] {
        assert k > 0 ==> Number(b, at + 2 + 2 * (k - 1), 2) == id[1..][k - 1];
      }
    }
  }

  /** The image: the path, and the whole of it, or the size and time of the
      file it was opened from and how many sectors differ. */
  predicate ImageAt(b: seq<Byte>, at: nat, image: seq<Byte>, path: seq<Byte>, f: M.File) {
    var n := at + 4 + |path|;
    && n + 9 <= |b| && Number(b, at, 4) == |path| && b[at + 4..n] == path
    && Number(b, n + 1, 8) == |image|
    && (if M.Usable(f, image) then
          && n + 25 <= |b| && b[n] == 1 && Number(b, n + 9, 8) == f.mtime
          && Number(b, n + 17, 8) == |M.Dirty(image, f.bytes, 0)|
        else b[n] == 0 && n + 9 + |image| <= |b| && b[n + 9..n + 9 + |image|] == image)
  }

  lemma ImageStands(b: seq<Byte>, at: nat, image: seq<Byte>, path: seq<Byte>, f: M.File, after: seq<Byte>)
    requires at <= |b| && b[at..] == M.SaveImage(image, path, f) + after
    requires |path| < 0x1_0000_0000 && |image| <= 512 * 0x1_0000_0000
    requires f.File? ==> f.mtime < 0x1_0000_0000_0000_0000
    ensures ImageAt(b, at, image, path, f)
    ensures at + |M.SaveImage(image, path, f)| <= |b| && b[at + |M.SaveImage(image, path, f)|..] == after
  {
    WidthsFit();
    hide Number, Fits, Counted, M.Usable, ImageAt;
    Following(b, at, M.SaveImage(image, path, f), after);
    if M.Usable(f, image) {
      UsableParts(f, image);
      var dirty := M.Dirty(image, f.bytes, 0);
      FewDirty(image, f.bytes, 0);
      var size, time, count := Le(|image|, 8), Le(f.mtime, 8), Le(|dirty|, 8);
      var diffs := M.Diffs(image, dirty);
      DifferencesStand(b, at, image, path, f, size, time, count, diffs, after);
    } else {
      WholeStands(b, at, image, path, f, after);
    }
  }

  lemma UsableParts(f: M.File, image: seq<Byte>)
    requires M.Usable(f, image)
    ensures f.File? && |f.bytes| == |image|
  {
  }

  lemma WholeStands(b: seq<Byte>, at: nat, image: seq<Byte>, path: seq<Byte>, f: M.File, after: seq<Byte>)
    requires at <= |b| && b[at..] == Counted(4, path) + ([0] + Counted(8, image)) + after && !M.Usable(f, image)
    requires Fits(|path|, 4) && Fits(|image|, 8)
    ensures ImageAt(b, at, image, path, f)
  {
    hide *;
    var rest := [0] + Counted(8, image);
    Assoc(Counted(4, path), rest, after);
    CountedStands(b, at, 4, path, rest + after);
    var n := at + 4 + |path|;
    Assoc([0], Counted(8, image), after);
    MarkStands(b, n, 0, Counted(8, image) + after);
    WholeFollows(b, at, n, image, path, f, after);
  }

  /** One byte, and what follows it. */
  lemma MarkStands(b: seq<Byte>, n: nat, x: Byte, after: seq<Byte>)
    requires n <= |b| && b[n..] == [x] + after
    ensures n < |b| && b[n] == x && b[n + 1..] == after
  {
    Following(b, n, [x], after);
    assert b[n..n + 1][0] == b[n];
  }

  lemma WholeFollows(b: seq<Byte>, at: nat, n: nat, image: seq<Byte>, path: seq<Byte>, f: M.File, after: seq<Byte>)
    requires n == at + 4 + |path| && n < |b| && b[n] == 0 && b[n + 1..] == Counted(8, image) + after
    requires Number(b, at, 4) == |path| && b[at + 4..n] == path && !M.Usable(f, image) && Fits(|image|, 8)
    ensures ImageAt(b, at, image, path, f)
  {
    hide *;
    CountedStands(b, n + 1, 8, image, after);
    IsWholeImage(b, at, image, path, f);
  }

  lemma IsWholeImage(b: seq<Byte>, at: nat, image: seq<Byte>, path: seq<Byte>, f: M.File)
    requires !M.Usable(f, image)
    requires var n := at + 4 + |path|;
             && n + 9 + |image| <= |b| && Number(b, at, 4) == |path| && b[at + 4..n] == path && b[n] == 0
             && Number(b, n + 1, 8) == |image| && b[n + 1 + 8..n + 1 + 8 + |image|] == image
    ensures ImageAt(b, at, image, path, f)
  {
    hide Number, M.Usable, M.Dirty;
    var n := at + 4 + |path|;
    assert n + 1 + 8 == n + 9 && n + 1 + 8 + |image| == n + 9 + |image|;
  }

  lemma DifferencesStand(b: seq<Byte>, at: nat, image: seq<Byte>, path: seq<Byte>, f: M.File, size: seq<Byte>,
                         time: seq<Byte>, count: seq<Byte>, diffs: seq<Byte>, after: seq<Byte>)
    requires M.Usable(f, image) && f.File? && |f.bytes| == |image|
    requires var dirty := |M.Dirty(image, f.bytes, 0)|;
             && size == Le(|image|, 8) && time == Le(f.mtime, 8) && count == Le(dirty, 8)
             && Fits(|path|, 4) && Fits(|image|, 8) && Fits(f.mtime, 8) && Fits(dirty, 8)
    requires at <= |b|
    requires b[at..] == Counted(4, path) + ([1] + (size + (time + (count + diffs)))) + after
    ensures ImageAt(b, at, image, path, f)
  {
    hide Number, Fits, Counted, M.Usable, Le, M.Dirty;
    var n := at + 4 + |path|;
    Assoc(Counted(4, path), [1] + (size + (time + (count + diffs))), after);
    Assoc([1], size + (time + (count + diffs)), after);
    Assoc(size, time + (count + diffs), after);
    Assoc(time, count + diffs, after);
    Assoc(count, diffs, after);
    CountedStands(b, at, 4, path, [1] + (size + (time + (count + (diffs + after)))));
    Following(b, n, [1], size + (time + (count + (diffs + after))));
    NumberStands(b, n + 1, |image|, 8, time + (count + (diffs + after)));
    NumberStands(b, n + 9, f.mtime, 8, count + (diffs + after));
    NumberStands(b, n + 17, |M.Dirty(image, f.bytes, 0)|, 8, diffs + after);
    assert b[n..n + 1][0] == b[n];
  }

  lemma {:induction false} FewDirty(image: seq<Byte>, base: seq<Byte>, s: nat)
    requires |base| == |image|
    ensures |M.Dirty(image, base, s)| <= |image|
    ensures M.Start(s) < |image| ==> |M.Dirty(image, base, s)| <= |image| - M.Start(s)
    decreases |image| - M.Start(s)
  {
    hide M.Part;
    if M.Start(s) < |image| {
      FewDirty(image, base, s + 1);
    }
  }

  // ---- The whole stream ----

  /** The stream up to the image. */
  predicate BeginningAt(b: seq<Byte>, d: Dev) {
    563 <= |b| && RegsAt(b, d) && DriveAt(b, d.drive) && |d.drive.id| == 256 && IdAt(b, 51, d.drive.id)
  }

  /** From the image's name on, to the end. */
  predicate EndAt(b: seq<Byte>, n: nat, s: Saved) {
    var t, data := n + 4 + |s.name|, |s.dev.atapi.data|;
    && |b| == t + 76 + data
    && Number(b, n, 4) == |s.name| && b[n + 4..t] == s.name
    && TaskAt(b, t, s.dev) && b[t + 22..t + 34] == s.dev.buf
    && FlagsAt(b, t + 34, s) && b[t + 43..t + 55] == s.dev.atapi.packet
    && Number(b, t + 55, 8) == data && b[t + 63..t + 63 + data] == s.dev.atapi.data
    && AtapiAt(b, t + 63 + data, s.dev.atapi)
  }

  lemma BeginningStands(b: seq<Byte>, d: Dev, w: seq<nat>, h: seq<nat>, after: seq<Byte>)
    requires HeadLike(w) && h == Head(d) && |h| == |w| && FitsAll(w, h) && |d.drive.id| == 256
    requires b == Fields(w, h) + (Words(d.drive.id) + after)
    ensures BeginningAt(b, d) && 563 <= |b| && b[563..] == after
  {
    LastPlaces(w);
    HeadLikeIs(w);
    hide Head, Fields, Words, FitsAll, HeadLike, Place, Number, RegsAt, DriveAt, IdAt, Stands;
    assert b[0..] == b;
    RecordStands(b, 0, w, h, Words(d.drive.id) + after);
    HeadStands(b, d, w, h);
    WordsStand(b, 51, d.drive.id, after);
  }

  lemma HeadLikeIs(w: seq<nat>)
    requires HeadLike(w)
    ensures |w| == 23
  {
  }

  lemma SixFields(s: Saved)
    ensures |MIDDLE_WIDTHS| == |Middle(s.dev)| == |FLAG_WIDTHS| == |Flags(s)| == |TAIL_WIDTHS| == |Tail(s.dev)| == 6
  {
  }

  lemma TaskRecord(b: seq<Byte>, t: nat, s: Saved, after: seq<Byte>)
    requires Savable(s) && t <= |b|
    requires |MIDDLE_WIDTHS| == |Middle(s.dev)|
    requires b[t..] == Fields(MIDDLE_WIDTHS, Middle(s.dev)) + (s.dev.buf + after)
    ensures t + 34 <= |b| && TaskAt(b, t, s.dev) && b[t + 22..t + 34] == s.dev.buf && b[t + 34..] == after
  {
    PacketSize(s);
    SavableValid(s);
    FieldsFit(s);
    SixFields(s);
    hide Savable, Number, Fields, FitsAll, Place, TaskAt, Stands, Middle, Valid, MIDDLE_WIDTHS;
    RecordStands(b, t, MIDDLE_WIDTHS, Middle(s.dev), s.dev.buf + after);
    TaskStands(b, t, s.dev);
    Following(b, t + 22, s.dev.buf, after);
  }

  lemma FlagsRecord(b: seq<Byte>, t: nat, s: Saved, after: seq<Byte>)
    requires Savable(s) && t <= |b|
    requires |FLAG_WIDTHS| == |Flags(s)| && b[t..] == Fields(FLAG_WIDTHS, Flags(s)) + after
    ensures t + 9 <= |b| && FlagsAt(b, t, s) && b[t + 9..] == after
  {
    FieldsFit(s);
    SixFields(s);
    hide Savable, Number, Fields, FitsAll, Place, FlagsAt, Stands, Flags, FLAG_WIDTHS;
    RecordStands(b, t, FLAG_WIDTHS, Flags(s), after);
    FlagsStand(b, t, s);
  }

  lemma AtapiRecord(b: seq<Byte>, t: nat, s: Saved)
    requires Savable(s) && t <= |b|
    requires |TAIL_WIDTHS| == |Tail(s.dev)| && b[t..] == Fields(TAIL_WIDTHS, Tail(s.dev))
    ensures |b| == t + 13 && AtapiAt(b, t, s.dev.atapi)
  {
    FieldsFit(s);
    SixFields(s);
    hide Savable, Number, Fields, FitsAll, Place, AtapiAt, Stands, Tail, TAIL_WIDTHS;
    assert b[t..] + [] == b[t..];
    RecordStands(b, t, TAIL_WIDTHS, Tail(s.dev), []);
    AtapiStands(b, t, s.dev);
  }

  lemma PacketStands(b: seq<Byte>, p: nat, packet: seq<Byte>, data: seq<Byte>, after: seq<Byte>)
    requires p <= |b| && b[p..] == packet + (Counted(8, data) + after) && |packet| == 12 && Fits(|data|, 8)
    ensures p + 20 + |data| <= |b| && b[p..p + 12] == packet && Number(b, p + 12, 8) == |data|
    ensures b[p + 20..p + 20 + |data|] == data && b[p + 20 + |data|..] == after
  {
    hide Number, Fits, Counted;
    Following(b, p, packet, Counted(8, data) + after);
    CountedStands(b, p + 12, 8, data, after);
  }

  lemma EndStands(b: seq<Byte>, n: nat, s: Saved)
    requires Savable(s) && n <= |b| && b[n..] == RestPart(s)
    ensures EndAt(b, n, s)
  {
    hide *;
    PacketSize(s);
    SixFields(s);
    SavableValid(s);
    FitsBytes(|s.name|);
    FitsBytes(|s.dev.atapi.data|);
    UnfoldEnd(s);
    var t, data, p := n + 4 + |s.name|, s.dev.atapi.data, PacketPart(s);
    var m, f := Fields(MIDDLE_WIDTHS, Middle(s.dev)), Fields(FLAG_WIDTHS, Flags(s));
    var e := Fields(TAIL_WIDTHS, Tail(s.dev));
    CountedStands(b, n, 4, s.name, m + (s.dev.buf + (f + p)));
    TaskRecord(b, t, s, f + p);
    FlagsRecord(b, t + 34, s, p);
    PacketStands(b, t + 34 + 9, s.dev.atapi.packet, data, e);
    AtapiRecord(b, t + 34 + 9 + 20 + |data|, s);
    IsEnd(b, n, s);
  }

  lemma UnfoldEnd(s: Saved)
    requires |MIDDLE_WIDTHS| == |Middle(s.dev)| && |FLAG_WIDTHS| == |Flags(s)| && |TAIL_WIDTHS| == |Tail(s.dev)|
    ensures RestPart(s)
         == Counted(4, s.name) + (Fields(MIDDLE_WIDTHS, Middle(s.dev))
                                  + (s.dev.buf + (Fields(FLAG_WIDTHS, Flags(s)) + PacketPart(s))))
    ensures PacketPart(s)
         == s.dev.atapi.packet + (Counted(8, s.dev.atapi.data) + Fields(TAIL_WIDTHS, Tail(s.dev)))
  {
    hide Counted, Fields, MIDDLE_WIDTHS, FLAG_WIDTHS, TAIL_WIDTHS, Middle, Flags, Tail;
  }

  lemma IsEnd(b: seq<Byte>, n: nat, s: Saved)
    requires var t, data := n + 4 + |s.name|, |s.dev.atapi.data|;
             var p := t + 34 + 9;
             && |b| == p + 20 + data + 13
             && Number(b, n, 4) == |s.name| && b[n + 4..t] == s.name
             && TaskAt(b, t, s.dev) && b[t + 22..t + 34] == s.dev.buf
             && FlagsAt(b, t + 34, s) && b[p..p + 12] == s.dev.atapi.packet
             && Number(b, p + 12, 8) == data && b[p + 20..p + 20 + data] == s.dev.atapi.data
             && AtapiAt(b, p + 20 + data, s.dev.atapi)
    ensures EndAt(b, n, s)
  {
    hide Number, TaskAt, FlagsAt, AtapiAt;
    var t := n + 4 + |s.name|;
    assert t + 34 + 9 == t + 43 && t + 43 + 12 == t + 55 && t + 43 + 20 == t + 63;
  }

  lemma SavableValid(s: Saved)
    requires Savable(s)
    ensures Valid(s.dev) && |s.name| < 0x1_0000_0000 && |s.dev.atapi.data| < 0x1_0000_0000_0000_0000
  {
  }

  /** A checkpoint byte by byte: the record of registers and geometry, the 256
      IDENTIFY words, the image, its name, and the command under way. */
  lemma LayoutIs(s: Saved, f: M.File)
    requires Savable(s) && (f.File? ==> f.mtime < 0x1_0000_0000_0000_0000)
    ensures var b := Save(s, f);
            && BeginningAt(b, s.dev) && ImageAt(b, 563, s.dev.image, s.path, f)
            && EndAt(b, 563 + |M.SaveImage(s.dev.image, s.path, f)|, s)
  {
    hide *;
    FieldsFit(s);
    PacketSize(s);
    SizesOf(s);
    HeadStarts(s.dev);
    HeadWidths();
    HeadLikeIs(HEAD_WIDTHS);
    SaveIs(s, f);
    var image := M.SaveImage(s.dev.image, s.path, f);
    var b := Save(s, f);
    BeginningStands(b, s.dev, HEAD_WIDTHS, Head(s.dev), image + RestPart(s));
    ImageStands(b, 563, s.dev.image, s.path, f, RestPart(s));
    EndStands(b, 563 + |image|, s);
  }
}
