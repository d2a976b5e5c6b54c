/** Little-endian fields, strings and byte vectors as the checkpoints store
    them, with readers that undo the writers. */
module Streams {
  import opened Platform

  datatype Option<T> = None | Some(value: T)

  /** What a reader found, and what is left of the stream. */
  datatype Read<T> = Short | Got(value: T, rest: seq<Byte>)

  function Le(v: nat, width: nat): (b: seq<Byte>)
    ensures |b| == width
  {
    if width == 0 then [] else [v % 0x100] + Le(v / 0x100, width - 1)
  }

  function FromLe(b: seq<Byte>): nat {
    if b == [] then 0 else b[0] + 0x100 * FromLe(b[1..])
  }

  predicate Fits(v: nat, width: nat) {
    if width == 0 then v == 0 else Fits(v / 0x100, width - 1)
  }

  lemma {:induction false} LeRoundTrip(v: nat, width: nat)
    requires Fits(v, width)
    ensures FromLe(Le(v, width)) == v
  {
    if width > 0 {
      LeRoundTrip(v / 0x100, width - 1);
      assert Le(v, width)[1..] == Le(v / 0x100, width - 1);
    }
  }

  lemma FitsBytes(v: nat)
    ensures v < 0x100 ==> Fits(v, 1)
    ensures v < 0x1_0000 ==> Fits(v, 2)
    ensures v < 0x1_0000_0000 ==> Fits(v, 4)
    ensures v < 0x1_0000_0000_0000_0000 ==> Fits(v, 8)
  {
    var a := v / 0x100;
    var b := a / 0x100;
    var c := b / 0x100;
    var d := c / 0x100;
    var e := d / 0x100;
    var f := e / 0x100;
    var g := f / 0x100;
    assert Fits(0, 0);
    assert g < 0x100 ==> Fits(g, 1);
    assert f < 0x1_0000 ==> Fits(f, 2);
    assert e < 0x100_0000 ==> Fits(e, 3);
    assert d < 0x1_0000_0000 ==> Fits(d, 4);
    assert c < 0x100_0000_0000 ==> Fits(c, 5);
    assert b < 0x1_0000_0000_0000 ==> Fits(b, 6);
    assert a < 0x100_0000_0000_0000 ==> Fits(a, 7);
    assert a < 0x100 ==> Fits(a, 1);
    assert b < 0x100 ==> Fits(b, 1);
    assert c < 0x100 ==> Fits(c, 1);
    assert b < 0x1_0000 ==> Fits(b, 2);
    assert a < 0x100_0000 ==> Fits(a, 3);
  }

  function ReadLe(s: seq<Byte>, width: nat): Read<nat> {
    if |s| < width then Short else Got(FromLe(s[..width]), s[width..])
  }

  lemma ReadUndoesLe(v: nat, width: nat, rest: seq<Byte>)
    requires Fits(v, width)
    ensures ReadLe(Le(v, width) + rest, width) == Got(v, rest)
  {
    LeRoundTrip(v, width);
    assert (Le(v, width) + rest)[..width] == Le(v, width);
    assert (Le(v, width) + rest)[width..] == rest;
  }

  // ---- Records: fields one after the other ----

  predicate FitsAll(widths: seq<nat>, values: seq<nat>) {
    |widths| == |values| && (forall k :: 0 <= k < |values| ==> Fits(values[k], widths[k]))
  }

  function Fields(widths: seq<nat>, values: seq<nat>): (b: seq<Byte>)
    requires |widths| == |values|
  {
    if widths == [] then [] else Le(values[0], widths[0]) + Fields(widths[1..], values[1..])
  }

  function ReadFields(s: seq<Byte>, widths: seq<nat>): (r: Read<seq<nat>>)
    ensures r.Got? ==> |r.value| == |widths|
    decreases widths
  {
    if widths == [] then Got([], s)
    else
      match ReadLe(s, widths[0])
      case Short => Short
      case Got(v, rest) =>
        match ReadFields(rest, widths[1..])
        case Short => Short
        case Got(vs, end) => Got([v] + vs, end)
  }

  lemma {:induction false} ReadUndoesFields(widths: seq<nat>, values: seq<nat>, rest: seq<Byte>)
    requires FitsAll(widths, values)
    ensures ReadFields(Fields(widths, values) + rest, widths) == Got(values, rest)
    decreases widths
  {
    if widths == [] {
      assert [] + rest == rest;
    } else {
      var first, later := Le(values[0], widths[0]), Fields(widths[1..], values[1..]);
      assert first + later + rest == first + (later + rest);
      ReadUndoesLe(values[0], widths[0], later + rest);
      ReadUndoesFields(widths[1..], values[1..], rest);
      assert [values[0]] + values[1..] == values;
    }
  }

  // ---- Strings and vectors: a length, then the bytes ----

  function Counted(width: nat, b: seq<Byte>): seq<Byte> {
    Le(|b|, width) + b
  }

  function ReadCounted(s: seq<Byte>, width: nat): Read<seq<Byte>> {
    match ReadLe(s, width)
    case Short => Short
    case Got(n, rest) => if |rest| < n then Short else Got(rest[..n], rest[n..])
  }

  lemma ReadUndoesCounted(width: nat, b: seq<Byte>, rest: seq<Byte>)
    requires Fits(|b|, width)
    ensures ReadCounted(Counted(width, b) + rest, width) == Got(b, rest)
  {
    assert Counted(width, b) + rest == Le(|b|, width) + (b + rest);
    ReadUndoesLe(|b|, width, b + rest);
    assert (b + rest)[..|b|] == b && (b + rest)[|b|..] == rest;
  }
}
