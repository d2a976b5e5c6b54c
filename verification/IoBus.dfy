/** The I/O bus adapter: a CPU access of up to four byte lanes, put on a
    byte-wide peripheral bus one lane at a time. One step is one clock edge. */
module IoBus {
  import opened Platform

  const LANES: nat := 4

  datatype Phase = Idle | Issue(k: nat) | Waiting(k: nat) | Capture(k: nat) | Done | Ide | IdeDone

  /** The registers: what was asked, what has been read, the guard against
      taking a held request twice, and the outputs. */
  datatype Adapter = Adapter(
    phase: Phase, base: Word16, lanes: seq<bool>, isRead: bool, data: seq<Byte>, accum: seq<Byte>, wasActive: bool,
    address: Word16, read: bool, write: bool, wdata: Byte, ready: bool, dout: seq<Byte>,
    ideRead: bool, ideWrite: bool, ideData: seq<Byte>, ide32: bool)

  /** The inputs at one edge: the CPU's request and the peripherals' answers. */
  datatype Pins = Pins(rd: bool, wr: bool, word: nat, be: seq<bool>, din: seq<Byte>,
                       readdata: Byte, wait: bool, ideHold: bool, ideReaddata: seq<Byte>)

  predicate Valid(a: Adapter) {
    && |a.lanes| == |a.data| == |a.accum| == LANES && a.base % 4 == 0 && a.base + 3 < 0x1_0000
    && match a.phase
       case Issue(k) => k < LANES
       case Waiting(k) => k < LANES && a.lanes[k]
       case Capture(k) => k < LANES && a.lanes[k] && a.isRead
       case _ => true
  }

  predicate Proper(i: Pins) {
    |i.be| == |i.din| == |i.ideReaddata| == LANES
  }

  predicate Requests(i: Pins) {
    i.rd || i.wr
  }

  function BasePort(i: Pins): (p: Word16)
    ensures p % 4 == 0 && p + 3 < 0x1_0000
  {
    i.word % 0x4000 * 4
  }

  /** An IDE data port, with its first byte asked for. */
  predicate IdeData(i: Pins)
    requires Proper(i)
  {
    (BasePort(i) == 0x1F0 || BasePort(i) == 0x170) && i.be[0]
  }

  /** The address to load at this edge, or the one that stays. */
  function NextAddress(a: Adapter, i: Pins): Word16
    requires Valid(a) && Proper(i)
  {
    match a.phase
    case Idle => if !a.wasActive && Requests(i) then BasePort(i) else a.address
    case Issue(k) => if a.lanes[k] then a.base + k else a.address
    case _ => a.address
  }

  function After(k: nat): Phase {
    if k + 1 < LANES then Issue(k + 1) else Done
  }

  const BLANK: seq<Byte> := [0xFF, 0xFF, 0xFF, 0xFF]

  /** The strobes and ready fall at every edge unless raised again. */
  function Lowered(a: Adapter): Adapter {
    a.(read := false, write := false, ready := false, ideRead := false, ideWrite := false)
  }

  function Accept(a: Adapter, i: Pins): Adapter
    requires Valid(a) && Proper(i)
  {
    var b := a.(base := BasePort(i), lanes := i.be, isRead := i.rd, data := i.din, accum := BLANK);
    if IdeData(i) then
      b.(phase := Ide, ide32 := i.be == [true, true, true, true], ideRead := i.rd, ideWrite := !i.rd,
         ideData := if i.rd then a.ideData else i.din)
    else b.(phase := Issue(0))
  }

  /** One clock edge, out of reset. */
  function Edge(a: Adapter, i: Pins): (r: Adapter)
    requires Valid(a) && Proper(i)
    ensures Valid(r)
  {
    var b := Lowered(a).(address := NextAddress(a, i));
    match a.phase
    case Idle =>
      if a.wasActive then b.(wasActive := Requests(i))
      else if Requests(i) then Accept(b, i)
      else b
    case Issue(k) =>
      if !a.lanes[k] then b.(phase := After(k))
      else if a.isRead then b.(read := true, phase := Waiting(k))
      else b.(write := true, wdata := a.data[k], phase := Waiting(k))
    case Waiting(k) => if i.wait then b else if a.isRead then b.(phase := Capture(k)) else b.(phase := After(k))
    case Capture(k) => b.(accum := a.accum[k := i.readdata], phase := After(k))
    case Done => b.(dout := a.accum, ready := true, wasActive := true, phase := Idle)
    case Ide => if i.ideHold then b else b.(phase := IdeDone)
    case IdeDone =>
      b.(dout := if a.isRead then i.ideReaddata else a.dout, ready := true, wasActive := true, phase := Idle)
  }

  /** Reset. */
  function Cleared(a: Adapter): (r: Adapter)
    requires Valid(a)
    ensures Valid(r)
  {
    Lowered(a).(phase := Idle, wasActive := false)
  }

  // ---- What the peripherals see ----

  datatype Strobe = ReadAt(port: Word16) | WriteAt(port: Word16, data: Byte)

  /** The strobe that is up, if one is. */
  function Seen(a: Adapter): seq<Strobe> {
    if a.read then [ReadAt(a.address)] else if a.write then [WriteAt(a.address, a.wdata)] else []
  }

  /** The strobes of lanes k and up of an access. */
  function LaneStrobes(base: Word16, lanes: seq<bool>, isRead: bool, data: seq<Byte>, k: nat): seq<Strobe>
    requires |lanes| == |data| == LANES && base + 3 < 0x1_0000 && k <= LANES
    decreases LANES - k
  {
    if k == LANES then []
    else
      (if !lanes[k] then [] else if isRead then [ReadAt(base + k)] else [WriteAt(base + k, data[k])])
      + LaneStrobes(base, lanes, isRead, data, k + 1)
  }

  /** The first lane not yet strobed. */
  function Lane(p: Phase): nat {
    match p
    case Issue(k) => k
    case Waiting(k) => k + 1
    case Capture(k) => k + 1
    case _ => LANES
  }

  /** The strobes an adapter still owes. */
  function Owed(a: Adapter): seq<Strobe>
    requires Valid(a)
  {
    LaneStrobes(a.base, a.lanes, a.isRead, a.data, Lane(a.phase))
  }

  predicate Accepts(a: Adapter, i: Pins) {
    a.phase.Idle? && !a.wasActive && Requests(i)
  }

  /** The strobes an edge takes on. */
  function Promised(a: Adapter, i: Pins): seq<Strobe>
    requires Valid(a) && Proper(i)
  {
    if Accepts(a, i) && !IdeData(i) then LaneStrobes(BasePort(i), i.be, i.rd, i.din, 0) else []
  }

  /** A strobe is up only in the clock after its lane was issued. */
  predicate Tidy(a: Adapter) {
    && ((a.read || a.write) ==> a.phase.Waiting?)
    && !(a.read && a.write)
  }

  lemma UnfoldLane(base: Word16, lanes: seq<bool>, isRead: bool, data: seq<Byte>, k: nat)
    requires |lanes| == |data| == LANES && base + 3 < 0x1_0000 && k <= LANES
    ensures k == LANES ==> LaneStrobes(base, lanes, isRead, data, k) == []
    ensures k < LANES ==>
      LaneStrobes(base, lanes, isRead, data, k)
      == (if !lanes[k] then [] else if isRead then [ReadAt(base + k)] else [WriteAt(base + k, data[k])])
         + LaneStrobes(base, lanes, isRead, data, k + 1)
  {
  }

  /** The account of strobes over one edge. */
  predicate Accounts(a: Adapter, i: Pins)
    requires Valid(a) && Proper(i)
  {
    var b := Edge(a, i);
    Tidy(b) && Owed(a) + Promised(a, i) == Seen(b) + Owed(b) && (Seen(a) != [] ==> Seen(b) == [])
  }

  /** One edge keeps the account of strobes, and a strobe is down again at the
      next one. */
  lemma EdgeStrobes(a: Adapter, i: Pins)
    requires Valid(a) && Proper(i) && Tidy(a)
    ensures Accounts(a, i)
  {
    hide Accounts, Edge, Valid;
    match a.phase
    case Idle => IdleStrobes(a, i);
    case Issue(k) => IssueStrobes(a, i);
    case Waiting(k) => WaitStrobes(a, i);
    case Capture(k) => CaptureStrobes(a, i);
    case _ => EndStrobes(a, i);
  }

  lemma WaitStrobes(a: Adapter, i: Pins)
    requires Valid(a) && Proper(i) && Tidy(a) && a.phase.Waiting?
    ensures Accounts(a, i)
  {
    hide LaneStrobes;
    assert [] + Owed(a) == Owed(a) == Owed(a) + [];
  }

  lemma CaptureStrobes(a: Adapter, i: Pins)
    requires Valid(a) && Proper(i) && Tidy(a) && a.phase.Capture?
    ensures Accounts(a, i)
  {
    hide LaneStrobes;
    assert [] + Owed(a) == Owed(a) == Owed(a) + [];
  }

  lemma EndStrobes(a: Adapter, i: Pins)
    requires Valid(a) && Proper(i) && Tidy(a) && (a.phase.Done? || a.phase.Ide? || a.phase.IdeDone?)
    ensures Accounts(a, i)
  {
    hide LaneStrobes;
    UnfoldLane(a.base, a.lanes, a.isRead, a.data, LANES);
  }

  lemma IdleStrobes(a: Adapter, i: Pins)
    requires Valid(a) && Proper(i) && Tidy(a) && a.phase.Idle?
    ensures Accounts(a, i)
  {
    hide LaneStrobes;
    UnfoldLane(a.base, a.lanes, a.isRead, a.data, LANES);
    UnfoldLane(BasePort(i), i.be, i.rd, i.din, LANES);
    var rest := Promised(a, i);
    assert [] + rest == rest;
  }

  lemma IssueStrobes(a: Adapter, i: Pins)
    requires Valid(a) && Proper(i) && Tidy(a) && a.phase.Issue?
    ensures Accounts(a, i)
  {
    hide LaneStrobes;
    UnfoldLane(a.base, a.lanes, a.isRead, a.data, a.phase.k);
    UnfoldLane(a.base, a.lanes, a.isRead, a.data, LANES);
    assert Owed(a) + [] == Owed(a);
  }

  /** Reset drops the access under way: no strobe is up or owed, and the next
      request is taken. */
  lemma ResetDropsAccess(a: Adapter, i: Pins)
    requires Valid(a) && Proper(i)
    ensures var b := Cleared(a);
            Tidy(b) && Seen(b) == [] && Owed(b) == [] && !b.ready && (Accepts(b, i) <==> Requests(i))
  {
    UnfoldLane(a.base, a.lanes, a.isRead, a.data, LANES);
  }

  function Run(a: Adapter, pins: seq<Pins>): (r: Adapter)
    requires Valid(a) && forall i :: i in pins ==> Proper(i)
    ensures Valid(r)
    decreases pins
  {
    if pins == [] then a else Run(Edge(a, pins[0]), pins[1..])
  }

  function SeenAll(a: Adapter, pins: seq<Pins>): seq<Strobe>
    requires Valid(a) && forall i :: i in pins ==> Proper(i)
    decreases pins
  {
    if pins == [] then [] else Seen(Edge(a, pins[0])) + SeenAll(Edge(a, pins[0]), pins[1..])
  }

  function PromisedAll(a: Adapter, pins: seq<Pins>): seq<Strobe>
    requires Valid(a) && forall i :: i in pins ==> Proper(i)
    decreases pins
  {
    if pins == [] then [] else Promised(a, pins[0]) + PromisedAll(Edge(a, pins[0]), pins[1..])
  }

  lemma Regroup(a: seq<Strobe>, p: seq<Strobe>, ps: seq<Strobe>, s: seq<Strobe>, b: seq<Strobe>,
        ss: seq<Strobe>, c: seq<Strobe>)
    requires a + p == s + b && b + ps == ss + c
    ensures a + (p + ps) == s + ss + c
  {
    assert a + (p + ps) == (a + p) + ps;
    assert (s + b) + ps == s + (b + ps);
    assert s + (ss + c) == s + ss + c;
  }

  /** Over any run of requests, waits and answers, the strobes seen are the
      active lanes of the accesses taken, in order and each once; only those
      of the access under way are still to come. */
  lemma {:induction false} StrobesAreLanes(a: Adapter, pins: seq<Pins>)
    requires Valid(a) && Tidy(a) && forall i :: i in pins ==> Proper(i)
    ensures Owed(a) + PromisedAll(a, pins) == SeenAll(a, pins) + Owed(Run(a, pins))
    ensures Tidy(Run(a, pins))
    decreases pins
  {
    if pins != [] {
      hide Edge, Owed, Promised, Seen, Valid, Tidy;
      EdgeStrobes(a, pins[0]);
      var b := Edge(a, pins[0]);
      StrobesAreLanes(b, pins[1..]);
      Regroup(Owed(a), Promised(a, pins[0]), PromisedAll(b, pins[1..]), Seen(b), Owed(b), SeenAll(b, pins[1..]),
              Owed(Run(b, pins[1..])));
    }
  }

  // ---- Ready, once an access ----

  function One(b: bool): nat { if b then 1 else 0 }

  predicate Busy(a: Adapter) {
    !a.phase.Idle?
  }

  function Accesses(a: Adapter, pins: seq<Pins>): nat
    requires Valid(a) && forall i :: i in pins ==> Proper(i)
    decreases pins
  {
    if pins == [] then 0 else One(Accepts(a, pins[0])) + Accesses(Edge(a, pins[0]), pins[1..])
  }

  function Readies(a: Adapter, pins: seq<Pins>): nat
    requires Valid(a) && forall i :: i in pins ==> Proper(i)
    decreases pins
  {
    if pins == [] then 0 else One(Edge(a, pins[0]).ready) + Readies(Edge(a, pins[0]), pins[1..])
  }

  lemma EdgeReady(a: Adapter, i: Pins)
    requires Valid(a) && Proper(i)
    ensures One(Busy(a)) + One(Accepts(a, i)) == One(Edge(a, i).ready) + One(Busy(Edge(a, i)))
  {
    if Busy(a) {
      EdgeWork(a, i);
      hide Edge, Valid, Work;
    }
  }

  /** Every access taken is answered by one ready, but the one under way. */
  lemma {:induction false} ReadyOncePerAccess(a: Adapter, pins: seq<Pins>)
    requires Valid(a) && forall i :: i in pins ==> Proper(i)
    ensures One(Busy(a)) + Accesses(a, pins) == Readies(a, pins) + One(Busy(Run(a, pins)))
    decreases pins
  {
    if pins != [] {
      EdgeReady(a, pins[0]);
      hide Edge, Valid, Busy, Accepts;
      ReadyOncePerAccess(Edge(a, pins[0]), pins[1..]);
    }
  }

  /** A request held after its ready is not taken again: the adapter stays
      quiet until a clock without one, and is then free. */
  lemma {:induction false} HeldRequestIsIgnored(a: Adapter, pins: seq<Pins>)
    requires Valid(a) && a.phase.Idle? && a.wasActive
    requires forall i :: i in pins ==> Proper(i) && Requests(i)
    ensures var r := Run(a, pins); r.phase.Idle? && r.wasActive
    ensures SeenAll(a, pins) == [] && Accesses(a, pins) == 0 && Readies(a, pins) == 0
    ensures forall i :: Proper(i) && !Requests(i) ==> !Edge(Run(a, pins), i).wasActive
    decreases pins
  {
    if pins != [] {
      HeldRequestIsIgnored(Edge(a, pins[0]), pins[1..]);
    }
  }

  // ---- One access ----

  /** The clocks an access still takes, waits aside: two a lane for a write,
      three for a read, one for a lane not asked for, and one to answer. */
  function LaneClocks(lanes: seq<bool>, isRead: bool, k: nat): nat
    requires |lanes| == LANES && k <= LANES
    decreases LANES - k
  {
    if k == LANES then 1 else (if !lanes[k] then 1 else if isRead then 3 else 2) + LaneClocks(lanes, isRead, k + 1)
  }

  function Work(a: Adapter): nat
    requires Valid(a)
  {
    match a.phase
    case Idle => 0
    case Issue(k) => LaneClocks(a.lanes, a.isRead, k)
    case Waiting(k) => (if a.isRead then 2 else 1) + LaneClocks(a.lanes, a.isRead, k + 1)
    case Capture(k) => 1 + LaneClocks(a.lanes, a.isRead, k + 1)
    case Done => 1
    case Ide => 2
    case IdeDone => 1
  }

  predicate Held(a: Adapter, i: Pins) {
    (a.phase.Waiting? && i.wait) || (a.phase.Ide? && i.ideHold)
  }

  /** The byte an edge takes from the peripheral. */
  function Taken(a: Adapter, i: Pins): seq<Byte> {
    if a.phase.Capture? then [i.readdata] else []
  }

  /** The answer when the lanes from k on read the given bytes in turn. */
  function Answer(accum: seq<Byte>, lanes: seq<bool>, isRead: bool, k: nat, bytes: seq<Byte>): (r: seq<Byte>)
    requires |accum| == |lanes| == LANES && k <= LANES
    ensures |r| == LANES
    decreases LANES - k
  {
    if k == LANES || bytes == [] then accum
    else if lanes[k] && isRead then Answer(accum[k := bytes[0]], lanes, isRead, k + 1, bytes[1..])
    else Answer(accum, lanes, isRead, k + 1, bytes)
  }

  /** The lane whose byte is read next. */
  function ReadLane(p: Phase): nat {
    match p
    case Issue(k) => k
    case Waiting(k) => k
    case Capture(k) => k
    case _ => LANES
  }

  function Answering(a: Adapter, bytes: seq<Byte>): seq<Byte>
    requires Valid(a)
  {
    Answer(a.accum, a.lanes, a.isRead, ReadLane(a.phase), bytes)
  }

  predicate InLanes(a: Adapter) {
    a.phase.Issue? || a.phase.Waiting? || a.phase.Capture? || a.phase.Done?
  }

  lemma UnfoldClocks(lanes: seq<bool>, isRead: bool, k: nat)
    requires |lanes| == LANES && k <= LANES
    ensures k == LANES ==> LaneClocks(lanes, isRead, k) == 1
    ensures k < LANES ==>
      LaneClocks(lanes, isRead, k) == (if !lanes[k] then 1 else if isRead then 3 else 2) + LaneClocks(lanes,
            isRead, k + 1)
  {
  }

  /** The account of clocks over one edge. */
  predicate Counts(a: Adapter, i: Pins)
    requires Valid(a) && Proper(i)
  {
    var b := Edge(a, i);
    && Work(a) == Work(b) + One(!Held(a, i))
    && (b.ready <==> !Busy(b)) && (InLanes(a) && Busy(b) ==> InLanes(b))
  }

  lemma EdgeWork(a: Adapter, i: Pins)
    requires Valid(a) && Proper(i) && Busy(a)
    ensures Counts(a, i)
  {
    hide Counts, Edge, Valid;
    match a.phase
    case Issue(k) => IssueWork(a, i);
    case Waiting(k) => WaitWork(a, i);
    case Capture(k) => WaitWork(a, i);
    case _ => EndWork(a, i);
  }

  lemma IssueWork(a: Adapter, i: Pins)
    requires Valid(a) && Proper(i) && a.phase.Issue?
    ensures Counts(a, i)
  {
    hide LaneClocks;
    UnfoldClocks(a.lanes, a.isRead, a.phase.k);
    UnfoldClocks(a.lanes, a.isRead, LANES);
  }

  lemma WaitWork(a: Adapter, i: Pins)
    requires Valid(a) && Proper(i) && (a.phase.Waiting? || a.phase.Capture?)
    ensures Counts(a, i)
  {
    hide LaneClocks;
    UnfoldClocks(a.lanes, a.isRead, LANES);
  }

  lemma EndWork(a: Adapter, i: Pins)
    requires Valid(a) && Proper(i) && (a.phase.Done? || a.phase.Ide? || a.phase.IdeDone?)
    ensures Counts(a, i)
  {
    hide LaneClocks;
  }

  lemma UnfoldAnswer(accum: seq<Byte>, lanes: seq<bool>, isRead: bool, k: nat, bytes: seq<Byte>, x: Byte)
    requires |accum| == |lanes| == LANES && k <= LANES
    ensures k == LANES || bytes == [] ==> Answer(accum, lanes, isRead, k, bytes) == accum
    ensures k < LANES && !(lanes[k] && isRead) ==>
      Answer(accum, lanes, isRead, k, bytes) == Answer(accum, lanes, isRead, k + 1, bytes)
    ensures k < LANES && lanes[k] && isRead ==>
      Answer(accum, lanes, isRead, k, [x] + bytes) == Answer(accum[k := x], lanes, isRead, k + 1, bytes)
  {
    assert ([x] + bytes)[1..] == bytes;
  }

  /** The lanes still to be read. */
  function Unread(a: Adapter): nat
    requires Valid(a)
  {
    if a.isRead && InLanes(a) then Active(a.lanes, ReadLane(a.phase), LANES) else 0
  }

  /** The account of the bytes read over one edge. */
  predicate Reads(a: Adapter, i: Pins, bytes: seq<Byte>)
    requires Valid(a) && Proper(i)
  {
    var b := Edge(a, i);
    && Unread(a) == |Taken(a, i)| + Unread(b)
    && Answering(a, Taken(a, i) + bytes) == if Busy(b) then Answering(b, bytes) else b.dout
  }

  lemma EdgeAnswers(a: Adapter, i: Pins, bytes: seq<Byte>)
    requires Valid(a) && Proper(i) && InLanes(a)
    ensures Reads(a, i, bytes)
  {
    hide Reads, Edge, Valid;
    match a.phase
    case Issue(k) => IssueReads(a, i, bytes);
    case Waiting(k) => WaitReads(a, i, bytes);
    case Capture(k) => CaptureReads(a, i, bytes);
    case _ => DoneReads(a, i, bytes);
  }

  lemma UnfoldActive(lanes: seq<bool>, k: nat)
    requires |lanes| == LANES && k <= LANES
    ensures k == LANES ==> Active(lanes, k, LANES) == 0
    ensures k < LANES ==> Active(lanes, k, LANES) == One(lanes[k]) + Active(lanes, k + 1, LANES)
  {
  }

  lemma IssueReads(a: Adapter, i: Pins, bytes: seq<Byte>)
    requires Valid(a) && Proper(i) && a.phase.Issue?
    ensures Reads(a, i, bytes)
  {
    hide Answer, Active;
    assert [] + bytes == bytes;
    UnfoldActive(a.lanes, a.phase.k);
    UnfoldActive(a.lanes, LANES);
    UnfoldAnswer(a.accum, a.lanes, a.isRead, a.phase.k, bytes, i.readdata);
  }

  lemma WaitReads(a: Adapter, i: Pins, bytes: seq<Byte>)
    requires Valid(a) && Proper(i) && a.phase.Waiting?
    ensures Reads(a, i, bytes)
  {
    hide Answer, Active;
    assert [] + bytes == bytes;
    UnfoldAnswer(a.accum, a.lanes, a.isRead, a.phase.k, bytes, i.readdata);
  }

  lemma CaptureReads(a: Adapter, i: Pins, bytes: seq<Byte>)
    requires Valid(a) && Proper(i) && a.phase.Capture?
    ensures Reads(a, i, bytes)
  {
    hide Answer, Active;
    UnfoldActive(a.lanes, a.phase.k);
    UnfoldActive(a.lanes, LANES);
    UnfoldAnswer(a.accum, a.lanes, a.isRead, a.phase.k, bytes, i.readdata);
  }

  lemma DoneReads(a: Adapter, i: Pins, bytes: seq<Byte>)
    requires Valid(a) && Proper(i) && a.phase.Done?
    ensures Reads(a, i, bytes)
  {
    hide Answer;
    assert [] + bytes == bytes;
    UnfoldAnswer(a.accum, a.lanes, a.isRead, LANES, bytes, i.readdata);
  }

  /** The adapter until it is free again: the clocks that count, and the bytes
      it takes. */
  datatype Account = Account(end: Adapter, used: nat, bytes: seq<Byte>)

  function Until(a: Adapter, pins: seq<Pins>): (r: Account)
    requires Valid(a) && forall i :: i in pins ==> Proper(i)
    ensures Valid(r.end)
    decreases pins
  {
    if pins == [] || !Busy(a) then Account(a, 0, [])
    else
      var r := Until(Edge(a, pins[0]), pins[1..]);
      Account(r.end, One(!Held(a, pins[0])) + r.used, Taken(a, pins[0]) + r.bytes)
  }

  /** An access takes a number of clocks fixed by its lanes and direction, plus
      the clocks it is held; and ends with ready, the bytes read in their lanes,
      and all ones in the lanes not asked for. */
  lemma {:induction false} AccessRuns(a: Adapter, pins: seq<Pins>)
    requires Valid(a) && Busy(a) && InLanes(a) && forall i :: i in pins ==> Proper(i)
    ensures var r := Until(a, pins);
            && Work(a) == r.used + Work(r.end)
            && (Busy(r.end) <==> r.used < Work(a))
            && |r.bytes| + Unread(r.end) == Unread(a)
            && (!Busy(r.end) ==> r.end.ready && r.end.dout == Answering(a, r.bytes))
    decreases pins
  {
    if pins == [] {
      WorkLeft(a);
    } else {
      var b := Edge(a, pins[0]);
      var r := Until(b, pins[1..]);
      EdgeWork(a, pins[0]);
      EdgeAnswers(a, pins[0], r.bytes);
      if Busy(b) {
        AccessRuns(b, pins[1..]);
        hide Edge, Work, Answering, Unread;
      } else {
        assert r == Account(b, 0, []);
        assert Taken(a, pins[0]) + [] == Taken(a, pins[0]);
      }
      WorkLeft(b);
    }
  }

  lemma WorkLeft(a: Adapter)
    requires Valid(a)
    ensures Busy(a) <==> Work(a) > 0
  {
    if a.phase.Issue? {
      assert LaneClocks(a.lanes, a.isRead, a.phase.k) > 0;
    }
  }

  /** The answer of a read from its start: each active lane holds the byte read
      for it, the others all ones. */
  lemma {:induction false} AnswerLanes(accum: seq<Byte>, lanes: seq<bool>, k: nat, bytes: seq<Byte>, j: nat)
    requires |accum| == |lanes| == LANES && k <= j < LANES && |bytes| == Active(lanes, k, LANES)
    ensures Active(lanes, k, j) <= |bytes| && (lanes[j] ==> Active(lanes, k, j) < |bytes|)
    ensures Answer(accum, lanes, true, k, bytes)[j] == if lanes[j] then bytes[Active(lanes, k, j)] else accum[j]
    decreases LANES - k
  {
    AnswerBelow(accum, lanes, k, bytes, k);
    if bytes == [] {
      NoneActive(lanes, k, j);
    } else if k == j {
      if lanes[k] {
        AnswerBelow(accum[k := bytes[0]], lanes, k + 1, bytes[1..], k);
      } else {
        AnswerBelow(accum, lanes, k + 1, bytes, k);
      }
    } else if lanes[k] {
      AnswerLanes(accum[k := bytes[0]], lanes, k + 1, bytes[1..], j);
    } else {
      AnswerLanes(accum, lanes, k + 1, bytes, j);
    }
  }

  /** The active lanes from k up to j. */
  function Active(lanes: seq<bool>, k: nat, j: nat): nat
    requires k <= j <= |lanes|
    decreases j - k
  {
    if k == j then 0 else One(lanes[k]) + Active(lanes, k + 1, j)
  }

  lemma {:induction false} NoneActive(lanes: seq<bool>, k: nat, j: nat)
    requires |lanes| == LANES && k <= j < LANES && Active(lanes, k, LANES) == 0
    ensures Active(lanes, k, j) == 0 && !lanes[j]
    decreases j - k
  {
    if k < j {
      NoneActive(lanes, k + 1, j);
    }
  }

  lemma {:induction false} AnswerBelow(accum: seq<Byte>, lanes: seq<bool>, k: nat, bytes: seq<Byte>, j: nat)
    requires |accum| == |lanes| == LANES && k <= LANES
    ensures forall x :: 0 <= x < k && x < LANES ==> Answer(accum, lanes, true, k, bytes)[x] == accum[x]
    decreases LANES - k
  {
    if k < LANES && bytes != [] {
      if lanes[k] {
        AnswerBelow(accum[k := bytes[0]], lanes, k + 1, bytes[1..], j);
      } else {
        AnswerBelow(accum, lanes, k + 1, bytes, j);
      }
    }
  }

  /** A read of any lanes but the IDE data ports', whatever the waits and
      whatever else is on the pins: the answer holds each active lane's byte,
      taken in ascending order, and FF in the others, after a number of clocks
      fixed by the lanes and the waits. */
  lemma ReadAccess(a: Adapter, i: Pins, pins: seq<Pins>)
    requires Valid(a) && Proper(i) && Accepts(a, i) && !IdeData(i) && i.rd
    requires forall x :: x in pins ==> Proper(x)
    ensures var r := Until(Edge(a, i), pins);
            && (Busy(r.end) <==> r.used < LaneClocks(i.be, true, 0))
            && (!Busy(r.end) ==>
                  && r.end.ready && r.used == LaneClocks(i.be, true, 0)
                  && |r.bytes| == Active(i.be, 0, LANES) && |r.end.dout| == LANES
                  && forall j :: 0 <= j < LANES ==>
                       r.end.dout[j] == if i.be[j] then Nth(r.bytes, Active(i.be, 0, j)) else 0xFF)
  {
    var b := Edge(a, i);
    AccessRuns(b, pins);
    var r := Until(b, pins);
    assert b.phase == Issue(0) && b.lanes == i.be && b.isRead && b.accum == BLANK;
    if !Busy(r.end) {
      assert Unread(r.end) == 0;
      assert r.end.dout == Answer(BLANK, i.be, true, 0, r.bytes);
      hide Edge, Until, Answer;
      forall j | 0 <= j < LANES
        ensures r.end.dout[j] == if i.be[j] then Nth(r.bytes, Active(i.be, 0, j)) else 0xFF
      {
        AnswerLanes(BLANK, i.be, 0, r.bytes, j);
      }
    }
  }

  function Nth(bytes: seq<Byte>, n: nat): Byte {
    if n < |bytes| then bytes[n] else 0xFF
  }

  /** And a write takes two clocks a lane, and one for a lane not asked for. */
  lemma WriteAccess(a: Adapter, i: Pins, pins: seq<Pins>)
    requires Valid(a) && Proper(i) && Accepts(a, i) && !IdeData(i) && !i.rd
    requires forall x :: x in pins ==> Proper(x)
    ensures var r := Until(Edge(a, i), pins);
            && (Busy(r.end) <==> r.used < 1 + LANES + Active(i.be, 0, LANES))
            && (!Busy(r.end) ==> r.end.ready)
  {
    AccessRuns(Edge(a, i), pins);
    WriteClocks(i.be, 0);
  }

  lemma {:induction false} WriteClocks(lanes: seq<bool>, k: nat)
    requires |lanes| == LANES && k <= LANES
    ensures LaneClocks(lanes, false, k) == 1 + (LANES - k) + Active(lanes, k, LANES)
    decreases LANES - k
  {
    if k < LANES {
      WriteClocks(lanes, k + 1);
    }
  }
}
