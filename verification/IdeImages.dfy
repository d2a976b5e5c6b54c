/** A disk in a checkpoint: the sectors that differ from the file it was
    opened from, or the whole image when there is no such file. */
module IdeImages {
  import opened Platform
  import opened Streams

  /** What a path names: nothing (as the empty path does), a file that cannot
      be read, or its bytes and modification time. */
  datatype File = Missing | Unreadable(size: nat, mtime: nat) | File(bytes: seq<Byte>, mtime: nat)

  function Start(s: nat): nat { 512 * s }

  function End(s: nat, size: nat): nat {
    if 512 * (s + 1) < size then 512 * (s + 1) else size
  }

  /** A sector's bytes; the last one may be partial. */
  function Part(image: seq<Byte>, s: nat): seq<Byte>
    requires Start(s) < |image|
  {
    image[Start(s)..End(s, |image|)]
  }

  /** The sectors that differ, from s on. */
  function Dirty(image: seq<Byte>, base: seq<Byte>, s: nat): (d: seq<nat>)
    requires |base| == |image|
    ensures forall k :: 0 <= k < |d| ==> s <= d[k] && Start(d[k]) < |image|
    decreases |image| - Start(s)
  {
    if Start(s) >= |image| then []
    else
      var later := Dirty(image, base, s + 1);
      if Part(image, s) != Part(base, s) then [s] + later else later
  }

  predicate InSize(sectors: seq<nat>, size: nat) {
    forall k :: 0 <= k < |sectors| ==> Start(sectors[k]) < size
  }

  function Diffs(image: seq<Byte>, sectors: seq<nat>): seq<Byte>
    requires InSize(sectors, |image|)
  {
    if sectors == [] then [] else Le(sectors[0], 4) + Part(image, sectors[0]) + Diffs(image, sectors[1..])
  }

  function Place(image: seq<Byte>, s: nat, part: seq<Byte>): (r: seq<Byte>)
    requires Start(s) < |image| && |part| == End(s, |image|) - Start(s)
    ensures |r| == |image|
  {
    image[..Start(s)] + part + image[End(s, |image|)..]
  }

  /** An image with some sectors taken from another. */
  function Overlay(onto: seq<Byte>, image: seq<Byte>, sectors: seq<nat>): (r: seq<Byte>)
    requires |onto| == |image| && InSize(sectors, |image|)
    ensures |r| == |onto|
    decreases sectors
  {
    if sectors == [] then onto else Overlay(Place(onto, sectors[0], Part(image, sectors[0])), image, sectors[1..])
  }

  /** The differences read back, count of them. */
  function ReadDiffs(s: seq<Byte>, count: nat, image: seq<Byte>): (r: Read<seq<Byte>>)
    ensures r.Got? ==> |r.value| == |image|
  {
    if count == 0 then Got(image, s)
    else
      match ReadLe(s, 4)
      case Short => Short
      case Got(k, rest) =>
        if Start(k) >= |image| || |rest| < End(k, |image|) - Start(k) then Short
        else
          var n := End(k, |image|) - Start(k);
          ReadDiffs(rest[n..], count - 1, Place(image, k, rest[..n]))
  }

  lemma {:induction false} ReadUndoesDiffs(image: seq<Byte>, sectors: seq<nat>, onto: seq<Byte>, rest: seq<Byte>)
    requires |onto| == |image| <= 512 * 0x1_0000_0000 && InSize(sectors, |image|)
    ensures ReadDiffs(Diffs(image, sectors) + rest, |sectors|, onto) == Got(Overlay(onto, image, sectors), rest)
    decreases sectors
  {
    if sectors == [] {
      assert [] + rest == rest;
    } else {
      var k := sectors[0];
      var part, later := Part(image, k), Diffs(image, sectors[1..]);
      FitsBytes(k);
      assert Le(k, 4) + part + later + rest == Le(k, 4) + (part + (later + rest));
      ReadUndoesLe(k, 4, part + (later + rest));
      assert (part + (later + rest))[..|part|] == part && (part + (later + rest))[|part|..] == later + rest;
      ReadUndoesDiffs(image, sectors[1..], Place(onto, k, part), rest);
    }
  }

  // ---- The image section ----

  /** The file a checkpoint may refer to: readable, of the image's size, and
      not empty. */
  predicate Usable(f: File, image: seq<Byte>) {
    f.File? && |f.bytes| == |image| && |image| > 0
  }

  function SaveImage(image: seq<Byte>, path: seq<Byte>, f: File): seq<Byte> {
    if Usable(f, image) then
      var dirty := Dirty(image, f.bytes, 0);
      Counted(4, path) + ([1] + (Le(|image|, 8) + (Le(f.mtime, 8) + (Le(|dirty|, 8) + Diffs(image, dirty)))))
    else Counted(4, path) + ([0] + Counted(8, image))
  }

  datatype Image = Image(path: seq<Byte>, bytes: seq<Byte>)

  /** Loading refuses a file that is gone, of another size or unreadable, and
      only warns of another modification time. */
  datatype Loaded = Refused | Truncated | Loaded(i: Image, rest: seq<Byte>)

  function LoadDiffs(s: seq<Byte>, path: seq<Byte>, f: File): Loaded {
    match ReadLe(s, 8)
    case Short => Truncated
    case Got(size, s1) =>
      match ReadLe(s1, 8)
      case Short => Truncated
      case Got(mtime, s2) =>
        if !f.File? || |f.bytes| != size then Refused
        else
          match ReadLe(s2, 8)
          case Short => Truncated
          case Got(count, s3) =>
            match ReadDiffs(s3, count, f.bytes)
            case Short => Truncated
            case Got(bytes, rest) => Loaded(Image(path, bytes), rest)
  }

  function LoadImage(s: seq<Byte>, files: seq<Byte> -> File): Loaded {
    match ReadCounted(s, 4)
    case Short => Truncated
    case Got(path, s1) =>
      if |s1| < 1 then Truncated
      else if s1[0] == 0 then
        match ReadCounted(s1[1..], 8)
        case Short => Truncated
        case Got(bytes, rest) => Loaded(Image(path, bytes), rest)
      else LoadDiffs(s1[1..], path, files(path))
  }

  // ---- What an overlay gives ----

  /** The same bytes in every sector the difference does not list. */
  ghost predicate CleanAgree(image: seq<Byte>, base: seq<Byte>, now: seq<Byte>)
    requires |image| == |base| == |now|
  {
    forall s :: Start(s) < |image| && Part(image, s) == Part(base, s) ==> Part(now, s) == Part(image, s)
  }

  lemma {:induction false} DirtyIff(image: seq<Byte>, base: seq<Byte>, s: nat, k: nat)
    requires |base| == |image| && s <= k && Start(k) < |image|
    ensures k in Dirty(image, base, s) <==> Part(image, k) != Part(base, k)
    decreases k - s
  {
    if s < k {
      DirtyIff(image, base, s + 1, k);
    } else {
      assert s !in Dirty(image, base, s + 1);
    }
  }

  lemma PlacePart(image: seq<Byte>, s: nat, part: seq<Byte>, k: nat)
    requires Start(s) < |image| && |part| == End(s, |image|) - Start(s) && Start(k) < |image|
    ensures Part(Place(image, s, part), k) == if k == s then part else Part(image, k)
  {
    var r := Place(image, s, part);
    if k < s {
      assert End(k, |image|) <= Start(s);
      assert r[Start(k)..End(k, |image|)] == image[Start(k)..End(k, |image|)];
    } else if k > s {
      assert End(s, |image|) <= Start(k);
      assert r[Start(k)..End(k, |image|)] == image[Start(k)..End(k, |image|)];
    }
  }

  lemma {:induction false} OverlayPart(onto: seq<Byte>, image: seq<Byte>, sectors: seq<nat>, k: nat)
    requires |onto| == |image| && InSize(sectors, |image|) && Start(k) < |image|
    ensures Part(Overlay(onto, image, sectors), k) == if k in sectors then Part(image, k) else Part(onto, k)
    decreases sectors
  {
    if sectors != [] {
      var next := Place(onto, sectors[0], Part(image, sectors[0]));
      PlacePart(onto, sectors[0], Part(image, sectors[0]), k);
      OverlayPart(next, image, sectors[1..], k);
    }
  }

  lemma SameParts(a: seq<Byte>, b: seq<Byte>)
    requires |a| == |b|
    requires forall s :: Start(s) < |a| ==> Part(a, s) == Part(b, s)
    ensures a == b
  {
    forall i | 0 <= i < |a|
      ensures a[i] == b[i]
    {
      var s := i / 512;
      assert Part(a, s)[i - Start(s)] == Part(b, s)[i - Start(s)];
    }
  }

  /** The sectors that differed, put onto the file as it is now, give the
      image again if and only if the file still has the image's bytes in the
      sectors that did not. */
  lemma OverlayRestoresIff(image: seq<Byte>, base: seq<Byte>, now: seq<Byte>)
    requires |image| == |base| == |now|
    ensures Overlay(now, image, Dirty(image, base, 0)) == image <==> CleanAgree(image, base, now)
  {
    var dirty := Dirty(image, base, 0);
    var r := Overlay(now, image, dirty);
    forall s | Start(s) < |image|
      ensures Part(r, s) == if Part(image, s) != Part(base, s) then Part(image, s) else Part(now, s)
    {
      OverlayPart(now, image, dirty, s);
      DirtyIff(image, base, 0, s);
    }
    if CleanAgree(image, base, now) {
      forall s | Start(s) < |r|
        ensures Part(r, s) == Part(image, s)
      {
      }
      SameParts(r, image);
    }
  }

  /** A saved image comes back, byte for byte and with the rest of the stream
      untouched, if and only if the file's clean sectors are as they were. */
  lemma ImageRoundTrip(image: seq<Byte>, path: seq<Byte>, f: File, files: seq<Byte> -> File, rest: seq<Byte>)
    requires |path| < 0x1_0000_0000 && |image| <= 512 * 0x1_0000_0000
    requires f.File? ==> f.mtime < 0x1_0000_0000_0000_0000
    requires Usable(f, image) ==> files(path).File? && |files(path).bytes| == |image|
    ensures var loaded := LoadImage(SaveImage(image, path, f) + rest, files);
            && loaded.Loaded? && loaded.rest == rest && loaded.i.path == path && |loaded.i.bytes| == |image|
            && (loaded.i.bytes == image
                <==> !Usable(f, image) || CleanAgree(image, f.bytes, files(path).bytes))
  {
    FitsBytes(|path|);
    FitsBytes(|image|);
    if Usable(f, image) {
      DiffsRoundTrip(image, path, f, files, rest);
      OverlayRestoresIff(image, f.bytes, files(path).bytes);
    } else {
      WholeRoundTrip(image, path, f, files, rest);
    }
  }

  lemma WholeRoundTrip(image: seq<Byte>, path: seq<Byte>, f: File, files: seq<Byte> -> File, rest: seq<Byte>)
    requires Fits(|path|, 4) && Fits(|image|, 8) && !Usable(f, image)
    ensures LoadImage(SaveImage(image, path, f) + rest, files) == Loaded(Image(path, image), rest)
  {
    hide Fits, Counted, ReadCounted, Usable, Diffs, Dirty;
    var body := [0] + Counted(8, image);
    assert Counted(4, path) + body + rest == Counted(4, path) + (body + rest);
    ReadUndoesCounted(4, path, body + rest);
    assert (body + rest)[1..] == Counted(8, image) + rest;
    ReadUndoesCounted(8, image, rest);
  }

  lemma {:induction false} FewDirty(image: seq<Byte>, base: seq<Byte>, s: nat)
    requires |base| == |image|
    ensures 512 * |Dirty(image, base, s)| <= if Start(s) < |image| then |image| + 511 - Start(s) else 0
    decreases |image| - Start(s)
  {
    if Start(s) < |image| {
      FewDirty(image, base, s + 1);
    }
  }

  lemma DiffsRoundTrip(image: seq<Byte>, path: seq<Byte>, f: File, files: seq<Byte> -> File, rest: seq<Byte>)
    requires |path| < 0x1_0000_0000 && |image| <= 512 * 0x1_0000_0000 && Usable(f, image)
    requires f.mtime < 0x1_0000_0000_0000_0000
    requires files(path).File? && |files(path).bytes| == |image|
    ensures LoadImage(SaveImage(image, path, f) + rest, files)
         == Loaded(Image(path, Overlay(files(path).bytes, image, Dirty(image, f.bytes, 0))), rest)
  {
    hide Fits, Counted, ReadCounted, Diffs, Dirty, Section, LoadDiffs, Overlay, InSize, SaveImage;
    var dirty := Dirty(image, f.bytes, 0);
    SizesFit(image, path, f);
    SectionIs(image, path, f);
    var s1 := Section(image, f.mtime, dirty);
    BodyRoundTrip(image, path, f.mtime, dirty, files(path), rest);
    var body := [1] + s1;
    Regroup(Counted(4, path), body, rest);
    ReadUndoesCounted(4, path, body + rest);
    Marked(s1, rest);
  }

  lemma Marked(s: seq<Byte>, rest: seq<Byte>)
    ensures ([1] + s + rest)[1..] == s + rest && ([1] + s + rest)[0] == 1 && |[1] + s + rest| > 0
  {
  }

  lemma SizesFit(image: seq<Byte>, path: seq<Byte>, f: File)
    requires |path| < 0x1_0000_0000 && |image| <= 512 * 0x1_0000_0000 && Usable(f, image)
    requires f.mtime < 0x1_0000_0000_0000_0000
    ensures |f.bytes| == |image| && InSize(Dirty(image, f.bytes, 0), |image|)
    ensures Fits(|path|, 4) && Fits(|image|, 8) && Fits(f.mtime, 8) && Fits(|Dirty(image, f.bytes, 0)|, 8)
  {
    hide Fits;
    FitsBytes(|path|);
    FitsBytes(|image|);
    FitsBytes(f.mtime);
    FewDirty(image, f.bytes, 0);
    FitsBytes(|Dirty(image, f.bytes, 0)|);
  }

  function Section(image: seq<Byte>, mtime: nat, dirty: seq<nat>): seq<Byte>
    requires InSize(dirty, |image|)
  {
    Le(|image|, 8) + (Le(mtime, 8) + (Le(|dirty|, 8) + Diffs(image, dirty)))
  }

  lemma SectionIs(image: seq<Byte>, path: seq<Byte>, f: File)
    requires Usable(f, image)
    ensures SaveImage(image, path, f) == Counted(4, path) + ([1] + Section(image, f.mtime, Dirty(image, f.bytes, 0)))
  {
    hide Diffs, Dirty, Le, Counted;
  }

  lemma BodyRoundTrip(image: seq<Byte>, path: seq<Byte>, mtime: nat, dirty: seq<nat>, now: File, rest: seq<Byte>)
    requires Fits(|image|, 8) && Fits(mtime, 8) && Fits(|dirty|, 8)
    requires InSize(dirty, |image|) && |image| <= 512 * 0x1_0000_0000 && now.File? && |now.bytes| == |image|
    ensures LoadDiffs(Section(image, mtime, dirty) + rest, path, now)
         == Loaded(Image(path, Overlay(now.bytes, image, dirty)), rest)
  {
    hide Fits, Le, ReadLe, Diffs, ReadDiffs, Overlay, InSize;
    var s4 := Diffs(image, dirty);
    var s3 := Le(|dirty|, 8) + s4;
    var s2 := Le(mtime, 8) + s3;
    Regroup(Le(|image|, 8), s2, rest);
    ReadUndoesLe(|image|, 8, s2 + rest);
    Regroup(Le(mtime, 8), s3, rest);
    ReadUndoesLe(mtime, 8, s3 + rest);
    Regroup(Le(|dirty|, 8), s4, rest);
    ReadUndoesLe(|dirty|, 8, s4 + rest);
    ReadUndoesDiffs(image, dirty, now.bytes, rest);
  }

  lemma Regroup(x: seq<Byte>, y: seq<Byte>, z: seq<Byte>)
    ensures x + y + z == x + (y + z)
  {
  }

  // ---- As the program does it ----

  lemma UnfoldDirty(image: seq<Byte>, base: seq<Byte>, s: nat, found: seq<nat>)
    requires |base| == |image|
    ensures Start(s) >= |image| ==> found + Dirty(image, base, s) == found
    ensures Start(s) < |image| ==>
      found + Dirty(image, base, s)
      == (if Part(image, s) != Part(base, s) then found + [s] else found) + Dirty(image, base, s + 1)
  {
  }

  /** The sectors that differ, collected in one pass. */
  method CollectDirty(image: array<Byte>, base: seq<Byte>) returns (dirty: seq<nat>)
    requires |base| == image.Length
    ensures dirty == Dirty(image[..], base, 0)
  {
    hide Dirty;
    dirty := [];
    var s := 0;
    ghost var bytes := image[..];
    assert [] + Dirty(bytes, base, 0) == Dirty(bytes, base, 0);
    while 512 * s < image.Length
      invariant dirty + Dirty(bytes, base, s) == Dirty(bytes, base, 0)
      decreases image.Length - 512 * s
    {
      UnfoldDirty(bytes, base, s, dirty);
      var end := End(s, image.Length);
      if image[Start(s)..end] != base[Start(s)..end] {
        dirty := dirty + [s];
      }
      s := s + 1;
    }
    UnfoldDirty(bytes, base, s, dirty);
  }

  lemma UnfoldDiffs(image: seq<Byte>, sectors: seq<nat>, k: nat, out: seq<Byte>)
    requires InSize(sectors, |image|) && k <= |sectors|
    ensures k == |sectors| ==> out + Diffs(image, sectors[k..]) == out
    ensures k < |sectors| ==>
      out + Diffs(image, sectors[k..])
      == out + (Le(sectors[k], 4) + Part(image, sectors[k])) + Diffs(image, sectors[k + 1..])
  {
    if k < |sectors| {
      DiffsFrom(image, sectors, k);
      hide *;
    } else {
      assert sectors[k..] == [];
    }
  }

  lemma DiffsFrom(image: seq<Byte>, sectors: seq<nat>, k: nat)
    requires InSize(sectors, |image|) && k < |sectors|
    ensures Diffs(image, sectors[k..]) == (Le(sectors[k], 4) + Part(image, sectors[k])) + Diffs(image, sectors[k + 1..])
  {
    hide Le, Part;
    assert sectors[k..][1..] == sectors[k + 1..];
  }

  /** The listed sectors written out. */
  method WriteDiffs(image: array<Byte>, dirty: seq<nat>) returns (out: seq<Byte>)
    requires InSize(dirty, image.Length)
    ensures out == Diffs(image[..], dirty)
  {
    hide Diffs;
    out := [];
    var k := 0;
    ghost var bytes := image[..];
    assert dirty[0..] == dirty && [] + Diffs(bytes, dirty) == Diffs(bytes, dirty);
    while k < |dirty|
      invariant 0 <= k <= |dirty|
      invariant out + Diffs(bytes, dirty[k..]) == Diffs(bytes, dirty)
    {
      UnfoldDiffs(bytes, dirty, k, out);
      var s := dirty[k];
      out := out + (Le(s, 4) + image[Start(s)..End(s, image.Length)]);
      k := k + 1;
    }
    UnfoldDiffs(bytes, dirty, k, out);
  }

  /** save_image. */
  method Save(image: array<Byte>, path: seq<Byte>, f: File) returns (out: seq<Byte>)
    ensures out == SaveImage(image[..], path, f)
  {
    if f.File? && |f.bytes| == image.Length && image.Length > 0 {
      var dirty := CollectDirty(image, f.bytes);
      var diffs := WriteDiffs(image, dirty);
      out := Counted(4, path) + ([1] + (Le(image.Length, 8) + (Le(f.mtime, 8) + (Le(|dirty|, 8) + diffs))));
    } else {
      out := Counted(4, path) + ([0] + Counted(8, image[..]));
    }
  }

  /** A sector's bytes put in place. */
  method PlaceInto(image: array<Byte>, s: nat, part: seq<Byte>)
    requires Start(s) < image.Length && |part| == End(s, image.Length) - Start(s)
    modifies image
    ensures image[..] == Place(old(image[..]), s, part)
  {
    var at := Start(s);
    forall j | 0 <= j < |part| {
      image[at + j] := part[j];
    }
    forall i | 0 <= i < image.Length
      ensures image[i] == Place(old(image[..]), s, part)[i]
    {
      if at <= i < at + |part| {
        assert image[at + (i - at)] == part[i - at];
      }
    }
  }

  lemma UnfoldReadDiffs(s: seq<Byte>, count: nat, image: seq<Byte>)
    ensures count == 0 ==> ReadDiffs(s, count, image) == Got(image, s)
    ensures count > 0 ==>
      var at := ReadLe(s, 4);
      ReadDiffs(s, count, image)
      == if at.Short? || Start(at.value) >= |image| || |at.rest| < End(at.value, |image|) - Start(at.value) then Short
         else
           var n := End(at.value, |image|) - Start(at.value);
           ReadDiffs(at.rest[n..], count - 1, Place(image, at.value, at.rest[..n]))
  {
  }

  /** The differences copied over the file's bytes, in place; fails when the
      stream ends early. */
  method Patch(image: array<Byte>, s: seq<Byte>, count: nat) returns (ok: bool, rest: seq<Byte>)
    modifies image
    ensures var r := ReadDiffs(s, count, old(image[..]));
            ok == r.Got? && (ok ==> r.value == image[..] && r.rest == rest)
  {
    hide ReadDiffs, ReadLe, Place;
    rest := s;
    var k := 0;
    while k < count
      invariant 0 <= k <= count
      invariant ReadDiffs(rest, count - k, image[..]) == ReadDiffs(s, count, old(image[..]))
    {
      UnfoldReadDiffs(rest, count - k, image[..]);
      var at := ReadLe(rest, 4);
      if at.Short? || Start(at.value) >= image.Length {
        return false, rest;
      }
      var n := End(at.value, image.Length) - Start(at.value);
      if |at.rest| < n {
        return false, rest;
      }
      PlaceInto(image, at.value, at.rest[..n]);
      rest := at.rest[n..];
      k := k + 1;
    }
    UnfoldReadDiffs(rest, 0, image[..]);
    ok := true;
  }
}
