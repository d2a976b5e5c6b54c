/** A whole access over the adapter's pins: which ports are strobed, what the
    CPU gets from peripherals that answer in their own time, and the wide path
    of the two IDE data ports. */
module IoAccess {
  import opened Platform
  import opened IoBus

  /** An adapter that waits for a request. */
  predicate Free(a: Adapter) {
    a.phase.Idle? && !a.wasActive
  }

  /** The CPU asks for an access; for a read if for both. */
  predicate Asks(i: Pins) {
    i.rd || i.wr
  }

  lemma AcceptsIff(a: Adapter, i: Pins)
    ensures Accepts(a, i) <==> Free(a) && Asks(i)
  {
  }

  // ---- The ports of an access ----

  /** The port of lane j: the dword's number times four, and j, in 16 bits. */
  function PortOf(i: Pins, j: nat): Word16 {
    (4 * i.word + j) % 0x1_0000
  }

  /** A data port of one of the two IDE channels, 1F0 or 170, with its first
      byte asked for. */
  predicate Wide(i: Pins)
    requires Proper(i)
  {
    i.be[0] && (i.word % 0x4000 == 0x7C || i.word % 0x4000 == 0x5C)
  }

  lemma WideIs(i: Pins)
    requires Proper(i)
    ensures IdeData(i) <==> Wide(i)
  {
  }

  lemma PortIs(i: Pins, j: nat)
    requires j < LANES
    ensures PortOf(i, j) == BasePort(i) + j
  {
    assert 4 * i.word + j == i.word / 0x4000 * 0x1_0000 + (i.word % 0x4000 * 4 + j);
  }

  /** The strobes seen until the adapter is free again. */
  function SeenUntil(a: Adapter, pins: seq<Pins>): seq<Strobe>
    requires Valid(a) && forall i :: i in pins ==> Proper(i)
    decreases pins
  {
    if pins == [] || !Busy(a) then [] else Seen(Edge(a, pins[0])) + SeenUntil(Edge(a, pins[0]), pins[1..])
  }

  lemma {:induction false} OwedIsSeen(a: Adapter, pins: seq<Pins>)
    requires Valid(a) && Tidy(a) && forall i :: i in pins ==> Proper(i)
    ensures Owed(a) == SeenUntil(a, pins) + Owed(Until(a, pins).end)
    decreases pins
  {
    if pins != [] && Busy(a) {
      var b := Edge(a, pins[0]);
      EdgeStrobes(a, pins[0]);
      OwedIsSeen(b, pins[1..]);
      hide Edge, Owed, Seen, SeenUntil, Valid, Tidy;
      assert Promised(a, pins[0]) == [] && Owed(a) + [] == Owed(a);
      Join(Seen(b), SeenUntil(b, pins[1..]), Owed(Until(b, pins[1..]).end));
      UntilNext(a, pins);
    }
  }

  lemma Join<T>(a: seq<T>, b: seq<T>, c: seq<T>)
    ensures a + (b + c) == (a + b) + c
  {
  }

  lemma UntilNext(a: Adapter, pins: seq<Pins>)
    requires Valid(a) && Busy(a) && pins != [] && forall i :: i in pins ==> Proper(i)
    ensures Until(a, pins).end == Until(Edge(a, pins[0]), pins[1..]).end
    ensures SeenUntil(a, pins) == Seen(Edge(a, pins[0])) + SeenUntil(Edge(a, pins[0]), pins[1..])
  {
    hide Edge;
  }

  lemma {:induction false} LaneStrobeAt(base: Word16, lanes: seq<bool>, isRead: bool, data: seq<Byte>, k: nat, j: nat)
    requires |lanes| == |data| == LANES && base + 3 < 0x1_0000 && k <= j < LANES && lanes[j]
    ensures var s := LaneStrobes(base, lanes, isRead, data, k);
            && Active(lanes, k, j) < |s|
            && s[Active(lanes, k, j)] == if isRead then ReadAt(base + j) else WriteAt(base + j, data[j])
    decreases LANES - k
  {
    UnfoldLane(base, lanes, isRead, data, k);
    if k < j {
      LaneStrobeAt(base, lanes, isRead, data, k + 1, j);
      hide LaneStrobes;
    }
  }

  lemma {:induction false} LaneStrobeCount(base: Word16, lanes: seq<bool>, isRead: bool, data: seq<Byte>, k: nat)
    requires |lanes| == |data| == LANES && base + 3 < 0x1_0000 && k <= LANES
    ensures |LaneStrobes(base, lanes, isRead, data, k)| == Active(lanes, k, LANES)
    decreases LANES - k
  {
    if k < LANES {
      LaneStrobeCount(base, lanes, isRead, data, k + 1);
    }
  }

  /** The strobes of lanes are at the lanes' ports. */
  lemma LanesAtPorts(i: Pins)
    requires Proper(i)
    ensures var s := LaneStrobes(BasePort(i), i.be, i.rd, i.din, 0);
            && |s| == Active(i.be, 0, LANES)
            && forall j :: 0 <= j < LANES && i.be[j] ==>
                 && Active(i.be, 0, j) < |s|
                 && s[Active(i.be, 0, j)] == if i.rd then ReadAt(PortOf(i, j)) else WriteAt(PortOf(i, j), i.din[j])
  {
    hide LaneStrobes, Active, BasePort, PortOf;
    LaneStrobeCount(BasePort(i), i.be, i.rd, i.din, 0);
    forall j | 0 <= j < LANES && i.be[j]
      ensures var s := LaneStrobes(BasePort(i), i.be, i.rd, i.din, 0);
              && Active(i.be, 0, j) < |s|
              && s[Active(i.be, 0, j)] == if i.rd then ReadAt(PortOf(i, j)) else WriteAt(PortOf(i, j), i.din[j])
    {
      PortIs(i, j);
      LaneStrobeAt(BasePort(i), i.be, i.rd, i.din, 0, j);
    }
  }

  lemma AccessOwes(a: Adapter, i: Pins, pins: seq<Pins>)
    requires Valid(a) && Tidy(a) && Proper(i) && Accepts(a, i) && !IdeData(i)
    requires forall x :: x in pins ==> Proper(x)
    requires !Busy(Until(Edge(a, i), pins).end)
    ensures Seen(Edge(a, i)) + SeenUntil(Edge(a, i), pins) == LaneStrobes(BasePort(i), i.be, i.rd, i.din, 0)
  {
    hide *;
    var b := Edge(a, i);
    StrobesTaken(a, i);
    OwedIsSeen(b, pins);
    NothingOwed(Until(b, pins).end);
    assert [] + SeenUntil(b, pins) == SeenUntil(b, pins) && SeenUntil(b, pins) + [] == SeenUntil(b, pins);
  }

  /** From a free adapter, whatever the waits: the strobes of an access are one
      for each active lane, in ascending order: a read at the lane's port, or a
      write there of the lane's byte. */
  lemma AccessStrobes(a: Adapter, i: Pins, pins: seq<Pins>)
    requires Valid(a) && Tidy(a) && Proper(i) && Free(a) && Asks(i) && !Wide(i)
    requires forall x :: x in pins ==> Proper(x)
    requires !Busy(Until(Edge(a, i), pins).end)
    ensures var s := Seen(Edge(a, i)) + SeenUntil(Edge(a, i), pins);
            && |s| == Active(i.be, 0, LANES)
            && forall j :: 0 <= j < LANES && i.be[j] ==>
                 && Active(i.be, 0, j) < |s|
                 && s[Active(i.be, 0, j)] == if i.rd then ReadAt(PortOf(i, j)) else WriteAt(PortOf(i, j), i.din[j])
  {
    hide *;
    WideIs(i);
    AcceptsIff(a, i);
    AccessOwes(a, i, pins);
    LanesAtPorts(i);
  }

  lemma StrobesTaken(a: Adapter, i: Pins)
    requires Valid(a) && Tidy(a) && Proper(i) && Accepts(a, i) && !IdeData(i)
    ensures var b := Edge(a, i);
            && Tidy(b) && Seen(b) == [] && Owed(b) == LaneStrobes(BasePort(i), i.be, i.rd, i.din, 0)
            && |i.be| == |i.din| == LANES
  {
  }

  lemma NothingOwed(a: Adapter)
    requires Valid(a) && !Busy(a)
    ensures Owed(a) == []
  {
  }

  lemma {:induction false} EndsActive(a: Adapter, pins: seq<Pins>)
    requires Valid(a) && Busy(a) && (forall i :: i in pins ==> Proper(i)) && !Busy(Until(a, pins).end)
    ensures var e := Until(a, pins).end; e.phase.Idle? && e.wasActive
    decreases pins
  {
    var b := Edge(a, pins[0]);
    if Busy(b) {
      EndsActive(b, pins[1..]);
      hide Edge;
    }
  }

  /** A request held on after its answer does nothing more, for however long;
      the first clock without it frees the adapter. */
  lemma AnsweredOnce(a: Adapter, i: Pins, pins: seq<Pins>, held: seq<Pins>, x: Pins)
    requires Valid(a) && Proper(i) && Free(a) && Asks(i) && Proper(x) && !Asks(x)
    requires (forall h :: h in pins ==> Proper(h)) && (forall h :: h in held ==> Proper(h) && Asks(h))
    requires !Busy(Until(Edge(a, i), pins).end)
    ensures var e := Until(Edge(a, i), pins).end;
            && SeenAll(e, held) == [] && Readies(e, held) == 0
            && Free(Edge(Run(e, held), x))
  {
    AcceptsIff(a, i);
    EndsActive(Edge(a, i), pins);
    var e := Until(Edge(a, i), pins).end;
    HeldRequestIsIgnored(e, held);
  }

  /** Without a request a free adapter stays free and shows nothing; and its
      address moves only with an access or a strobe. */
  lemma AddressMoves(a: Adapter, i: Pins)
    requires Valid(a) && Proper(i)
    ensures var b := Edge(a, i);
            && (Free(a) && !Asks(i) ==> Free(b) && Seen(b) == [] && !b.ready && b.address == a.address)
            && (Free(a) && Asks(i) ==> b.address == PortOf(i, 0))
            && (b.address != a.address && !Free(a) ==> Seen(b) != [])
  {
    PortIs(i, 0);
  }

  // ---- Peripherals that answer ----

  /** A peripheral bus watched from outside: quiet, asked for a port and
      perhaps waiting, or with the port's data due at the next edge. */
  datatype Watch = Quiet | Asked(port: Word16) | Due(port: Word16)

  /** After an edge with pins i: a read strobe asks; the first clock without a
      wait makes the data due one clock later. */
  function Watched(w: Watch, b: Adapter, i: Pins): Watch {
    if b.read then Asked(b.address)
    else
      match w
      case Asked(p) => if i.wait then w else Due(p)
      case _ => Quiet
  }

  /** The peripherals answer each read with what is at its port. */
  ghost predicate Serve(a: Adapter, w: Watch, pins: seq<Pins>, at: Word16 -> Byte)
    requires Valid(a) && forall i :: i in pins ==> Proper(i)
    decreases pins
  {
    pins != [] ==>
      && (w.Due? ==> pins[0].readdata == at(w.port))
      && Serve(Edge(a, pins[0]), Watched(w, Edge(a, pins[0]), pins[0]), pins[1..], at)
  }

  /** What the bus looks like from outside at each of the adapter's phases. */
  ghost predicate Seems(a: Adapter, w: Watch)
    requires Valid(a)
  {
    match a.phase
    case Waiting(k) => w == if a.isRead then Asked(a.base + k) else Quiet
    case Capture(k) => w == Due(a.base + k)
    case _ => w == Quiet
  }

  /** The bytes the lanes from k on will be given. */
  function Given(at: Word16 -> Byte, base: Word16, lanes: seq<bool>, k: nat): seq<Byte>
    requires |lanes| == LANES && base + 3 < 0x1_0000 && k <= LANES
    decreases LANES - k
  {
    if k == LANES then [] else (if lanes[k] then [at(base + k)] else []) + Given(at, base, lanes, k + 1)
  }

  lemma SeemsOn(a: Adapter, w: Watch, i: Pins)
    requires Valid(a) && Proper(i) && Busy(a) && Seems(a, w)
    ensures Seems(Edge(a, i), Watched(w, Edge(a, i), i))
  {
  }

  lemma {:induction false} BytesGiven(a: Adapter, w: Watch, pins: seq<Pins>, at: Word16 -> Byte)
    requires Valid(a) && a.isRead && InLanes(a) && Seems(a, w) && forall i :: i in pins ==> Proper(i)
    requires Serve(a, w, pins, at) && !Busy(Until(a, pins).end)
    ensures Until(a, pins).bytes == Given(at, a.base, a.lanes, ReadLane(a.phase))
    decreases pins
  {
    var i, b := pins[0], Edge(a, pins[0]);
    var w' := Watched(w, b, i);
    SeemsOn(a, w, i);
    GivenOn(a, w, i, at);
    EdgeWork(a, i);
    if Busy(b) {
      BytesGiven(b, w', pins[1..], at);
    } else {
      assert Until(b, pins[1..]).bytes == [];
      assert Given(at, b.base, b.lanes, LANES) == [];
    }
  }

  /** One edge: what it takes is the next of what is to be given. */
  lemma GivenOn(a: Adapter, w: Watch, i: Pins, at: Word16 -> Byte)
    requires Valid(a) && Proper(i) && a.isRead && InLanes(a) && Seems(a, w)
    requires w.Due? ==> i.readdata == at(w.port)
    ensures var b := Edge(a, i);
            && b.isRead && b.base == a.base && b.lanes == a.lanes
            && Given(at, a.base, a.lanes, ReadLane(a.phase))
               == Taken(a, i) + Given(at, a.base, a.lanes, if Busy(b) then ReadLane(b.phase) else LANES)
  {
    hide Given;
    var g := Given(at, a.base, a.lanes, ReadLane(a.phase));
    assert [] + g == g;
    UnfoldGiven(at, a.base, a.lanes, ReadLane(a.phase));
    UnfoldGiven(at, a.base, a.lanes, LANES);
  }

  lemma UnfoldGiven(at: Word16 -> Byte, base: Word16, lanes: seq<bool>, k: nat)
    requires |lanes| == LANES && base + 3 < 0x1_0000 && k <= LANES
    ensures k == LANES ==> Given(at, base, lanes, k) == []
    ensures k < LANES ==>
      Given(at, base, lanes, k) == (if lanes[k] then [at(base + k)] else []) + Given(at, base, lanes, k + 1)
  {
  }

  lemma {:induction false} GivenAt(at: Word16 -> Byte, base: Word16, lanes: seq<bool>, k: nat, j: nat)
    requires |lanes| == LANES && base + 3 < 0x1_0000 && k <= j < LANES && lanes[j]
    ensures var g := Given(at, base, lanes, k); Active(lanes, k, j) < |g| && g[Active(lanes, k, j)] == at(base + j)
    decreases LANES - k
  {
    if k < j {
      GivenAt(at, base, lanes, k + 1, j);
    }
  }

  lemma ReadTaken(a: Adapter, i: Pins)
    requires Valid(a) && Proper(i) && Accepts(a, i) && i.rd && !IdeData(i)
    ensures var b := Edge(a, i);
            Valid(b) && b.phase == Issue(0) && b.isRead && b.base == BasePort(i) && b.lanes == i.be && Seems(b, Quiet)
  {
  }

  /** What is given to a lane is what is at its port. */
  lemma GivenAtPorts(i: Pins, at: Word16 -> Byte)
    requires Proper(i)
    ensures forall j :: 0 <= j < LANES && i.be[j] ==>
              Nth(Given(at, BasePort(i), i.be, 0), Active(i.be, 0, j)) == at(PortOf(i, j))
  {
    hide Given, Active, BasePort, PortOf;
    forall j | 0 <= j < LANES && i.be[j]
      ensures Nth(Given(at, BasePort(i), i.be, 0), Active(i.be, 0, j)) == at(PortOf(i, j))
    {
      PortIs(i, j);
      GivenAt(at, BasePort(i), i.be, 0, j);
    }
  }

  lemma InputGiven(a: Adapter, i: Pins, pins: seq<Pins>, at: Word16 -> Byte)
    requires Valid(a) && Proper(i) && Accepts(a, i) && !IdeData(i) && i.rd
    requires (forall x :: x in pins ==> Proper(x)) && Serve(Edge(a, i), Quiet, pins, at)
    requires !Busy(Until(Edge(a, i), pins).end)
    ensures Until(Edge(a, i), pins).bytes == Given(at, BasePort(i), i.be, 0)
  {
    ReadTaken(a, i);
    hide Edge, Until, Given, BasePort, Valid, Serve, Seems;
    BytesGiven(Edge(a, i), Quiet, pins, at);
  }

  /** An input, with any peripherals that answer each read with what is at its
      port, after any waits: the CPU gets each active lane's port, and all ones
      in the other lanes. */
  lemma InputReadsPorts(a: Adapter, i: Pins, pins: seq<Pins>, at: Word16 -> Byte)
    requires Valid(a) && Proper(i) && Free(a) && !Wide(i) && i.rd
    requires (forall x :: x in pins ==> Proper(x)) && Serve(Edge(a, i), Quiet, pins, at)
    requires !Busy(Until(Edge(a, i), pins).end)
    ensures var r := Until(Edge(a, i), pins);
            && r.end.ready && |r.end.dout| == LANES
            && forall j :: 0 <= j < LANES ==> r.end.dout[j] == if i.be[j] then at(PortOf(i, j)) else 0xFF
  {
    WideIs(i);
    AcceptsIff(a, i);
    hide Edge, Until, Given, BasePort, Valid, Serve, Active, Nth, PortOf, Wide, IdeData, Accepts, Free, Busy;
    InputGiven(a, i, pins, at);
    ReadAccess(a, i, pins);
    GivenAtPorts(i, at);
  }

  // ---- The IDE data ports ----

  lemma {:induction false} Holding(a: Adapter, holds: seq<Pins>)
    requires Valid(a) && a.phase.Ide? && forall i :: i in holds ==> Proper(i) && i.ideHold
    ensures var b := Run(a, holds);
            && b.phase.Ide? && b.isRead == a.isRead && b.dout == a.dout
            && (holds != [] ==> !b.ideRead && !b.ideWrite && !b.read && !b.write && !b.ready)
            && b.ideData == a.ideData && b.ide32 == a.ide32
    decreases holds
  {
    if holds != [] {
      Holding(Edge(a, holds[0]), holds[1..]);
    }
  }

  /** An access to an IDE data port goes out whole in one clock, as 32 bits if
      all lanes are asked for, and nothing goes out on the byte bus; it is held
      as long as the IDE block asks; one clock after the first without a hold
      it is answered, a read with the word there is then. */
  lemma WideAccess(a: Adapter, i: Pins, holds: seq<Pins>, x: Pins, y: Pins)
    requires Valid(a) && Proper(i) && Free(a) && Asks(i) && Wide(i)
    requires (forall h :: h in holds ==> Proper(h) && h.ideHold) && Proper(x) && !x.ideHold && Proper(y)
    ensures var b := Edge(a, i);
            var c := Run(b, holds);
            var d := Edge(c, x);
            var e := Edge(d, y);
            && b.ideRead == i.rd && b.ideWrite == !i.rd && (!i.rd ==> b.ideData == i.din)
            && (b.ide32 <==> forall j :: 0 <= j < LANES ==> i.be[j])
            && Seen(b) == Seen(c) == Seen(d) == Seen(e) == []
            && (holds != [] ==> !c.ideRead && !c.ideWrite) && !d.ideRead && !d.ideWrite && !e.ideRead && !e.ideWrite
            && !b.ready && !c.ready && !d.ready && e.ready && e.phase.Idle? && e.wasActive
            && e.dout == if i.rd then y.ideReaddata else a.dout
  {
    WideIs(i);
    AcceptsIff(a, i);
    var b := Edge(a, i);
    Holding(b, holds);
    assert i.be == [i.be[0], i.be[1], i.be[2], i.be[3]];
  }

  /** No other access does anything on the wide path. */
  lemma {:induction false} NarrowAccess(a: Adapter, i: Pins)
    requires Valid(a) && Proper(i) && !(Free(a) && Asks(i) && Wide(i))
    ensures !Edge(a, i).ideRead && !Edge(a, i).ideWrite
  {
    WideIs(i);
    AcceptsIff(a, i);
  }
}
