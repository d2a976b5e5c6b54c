/** `tick` itself: the phase machine paced by the bus. After each bus
    operation comes one idle clock and, with jitter on, up to 63 more. None of
    it changes what is sent or stored. */
module IdePacing {
  import opened Platform
  import opened Ide
  import opened IdeRuns
  import R = IdeReads
  import W = IdeWrites

  datatype Ticker = Ticker(dev: Dev, cooldown: bool, delay: nat)
  datatype Ticked = Ticked(t: Ticker, op: Op)

  /** The device out of reset. */
  function Reset(d: Dev): (r: Dev)
    requires Valid(d)
    ensures Valid(r)
  {
    d.(phase := Initial, next := Idle, regs := FRESH.(status := if d.cdrom then 0 else RDY))
  }

  /** Whether the clock reaches the phase machine. */
  predicate Acts(t: Ticker) {
    !t.cooldown && t.delay == 0
  }

  /** One clock out of reset; jitter is the extra delay drawn if this clock
      uses the bus, 0 when jitter is off. */
  function Tick(t: Ticker, i: Inp, jitter: nat): (r: Ticked)
    requires Valid(t.dev)
    ensures Valid(r.t.dev)
  {
    if t.cooldown then Ticked(t.(cooldown := false), Quiet)
    else if t.delay > 0 then Ticked(t.(delay := t.delay - 1), Quiet)
    else
      var s := Next(t.dev, i);
      Ticked(Ticker(s.d, s.op != Quiet, if s.op != Quiet then jitter else 0), s.op)
  }

  /** One clock, with the reset line. */
  function Clock(t: Ticker, reset: bool, i: Inp, jitter: nat): (r: Ticked)
    requires Valid(t.dev)
    ensures Valid(r.t.dev)
    ensures reset ==> r.op == Quiet && Acts(r.t)
  {
    if reset then Ticked(Ticker(Reset(t.dev), false, 0), Quiet) else Tick(t, i, jitter)
  }

  // ---- Given inputs, clock by clock ----

  datatype Sample = Sample(i: Inp, jitter: nat)
  datatype Paced = Paced(t: Ticker, ops: seq<Op>)

  function Ticks(t: Ticker, samples: seq<Sample>): (r: Paced)
    requires Valid(t.dev)
    ensures Valid(r.t.dev)
    decreases samples
  {
    if samples == [] then Paced(t, [])
    else
      var s := Tick(t, samples[0].i, samples[0].jitter);
      var r := Ticks(s.t, samples[1..]);
      Paced(r.t, Emit(s.op) + r.ops)
  }

  /** The inputs of the clocks that reach the phase machine. */
  function Seen(t: Ticker, samples: seq<Sample>): (inputs: seq<Inp>)
    requires Valid(t.dev)
    ensures |inputs| <= |samples|
    decreases samples
  {
    if samples == [] then []
    else (if Acts(t) then [samples[0].i] else []) + Seen(Tick(t, samples[0].i, samples[0].jitter).t, samples[1..])
  }

  /** A clocked run is a run of the phase machine on the inputs it sees,
      whatever the delays. */
  lemma {:induction false} TicksAreSteps(t: Ticker, samples: seq<Sample>)
    requires Valid(t.dev)
    ensures Ticks(t, samples).t.dev == Run(t.dev, Seen(t, samples)).d
    ensures Ticks(t, samples).ops == Run(t.dev, Seen(t, samples)).ops
    decreases samples
  {
    hide Next, Valid;
    if samples != [] {
      var s := Tick(t, samples[0].i, samples[0].jitter);
      var seen := Seen(s.t, samples[1..]);
      TicksAreSteps(s.t, samples[1..]);
      if Acts(t) {
        assert ([samples[0].i] + seen)[1..] == seen;
      } else {
        assert [] + seen == seen;
      }
    }
  }

  predicate PatientSamples(samples: seq<Sample>) {
    forall s :: s in samples ==> s.i.request == 0 || s.i.request == 5
  }

  lemma {:induction false} SeenPatient(t: Ticker, samples: seq<Sample>)
    requires Valid(t.dev) && PatientSamples(samples)
    ensures Patient(Seen(t, samples))
    decreases samples
  {
    hide Next, Valid, Tick;
    if samples != [] {
      assert samples[0] in samples;
      SeenPatient(Tick(t, samples[0].i, samples[0].jitter).t, samples[1..]);
    }
  }

  /** Clock by clock, with any delays and any pacing of the host's requests, a
      read sends what it has to and nothing else. */
  lemma ReadAtAnyPace(t: Ticker, samples: seq<Sample>)
    requires R.InRead(t.dev) && PatientSamples(samples)
    ensures var r := Ticks(t, samples);
            && R.InRead(r.t.dev) && r.t.dev.image == t.dev.image
            && R.Rest(t.dev) == r.ops + R.Rest(r.t.dev)
  {
    TicksAreSteps(t, samples);
    SeenPatient(t, samples);
    R.ReadRuns(t.dev, Seen(t, samples));
    hide Next, Valid, R.Rest;
  }

  /** And a write stores the words its clocks took, in the same places. */
  lemma WriteAtAnyPace(t: Ticker, samples: seq<Sample>)
    requires W.InWrite(t.dev) && PatientSamples(samples)
    ensures var r, seen := Ticks(t, samples), Seen(t, samples);
            && W.InWrite(r.t.dev) && r.t.dev.image == W.Landing(t.dev, W.Words(t.dev, seen))
            && W.Rest(t.dev) == r.ops + W.Rest(r.t.dev)
            && W.Awaited(t.dev) == |W.Words(t.dev, seen)| + W.Awaited(r.t.dev)
  {
    var seen := Seen(t, samples);
    TicksAreSteps(t, samples);
    SeenPatient(t, samples);
    W.InWriteValid(t.dev);
    hide *;
    W.WriteRuns(t.dev, seen, []);
    W.AccountsAre(t.dev, seen, []);
    W.WriteOver(Run(t.dev, seen).d);
    assert W.Words(t.dev, seen) + [] == W.Words(t.dev, seen);
  }

  // ---- A host that answers what it has seen ----

  /** n clocks against a host whose request line and read data depend on the
      bus operations so far; draw(k) is the delay drawn at clock k. */
  function HostTicks(t: Ticker, ops: seq<Op>, host: seq<Op> -> Inp, draw: nat -> nat, at: nat, n: nat): (r: Paced)
    requires Valid(t.dev)
    ensures Valid(r.t.dev)
    decreases n
  {
    if n == 0 then Paced(t, ops)
    else
      var s := Tick(t, host(ops), draw(at));
      HostTicks(s.t, ops + Emit(s.op), host, draw, at + 1, n - 1)
  }

  /** The same host, and a machine without pauses. */
  function HostSteps(d: Dev, ops: seq<Op>, host: seq<Op> -> Inp, m: nat): (r: Ran)
    requires Valid(d)
    ensures Valid(r.d)
    decreases m
  {
    if m == 0 then Ran(d, ops)
    else
      var s := Next(d, host(ops));
      HostSteps(s.d, ops + Emit(s.op), host, m - 1)
  }

  /** Every state of the paced machine, operations included, is one of the
      machine without pauses. */
  lemma {:induction false} TicksFollowSteps(t: Ticker, ops: seq<Op>, host: seq<Op> -> Inp, draw: nat -> nat,
        at: nat, n: nat)
    returns (m: nat)
    requires Valid(t.dev)
    ensures m <= n
    ensures HostTicks(t, ops, host, draw, at, n).t.dev == HostSteps(t.dev, ops, host, m).d
    ensures HostTicks(t, ops, host, draw, at, n).ops == HostSteps(t.dev, ops, host, m).ops
    decreases n
  {
    hide Next, Valid;
    if n == 0 {
      m := 0;
    } else {
      var s := Tick(t, host(ops), draw(at));
      m := TicksFollowSteps(s.t, ops + Emit(s.op), host, draw, at + 1, n - 1);
      if Acts(t) {
        m := m + 1;
      } else {
        assert ops + [] == ops;
      }
    }
  }

  /** The pause the paced machine is in, in clocks. */
  function Pause(t: Ticker): nat {
    (if t.cooldown then 1 else 0) + t.delay
  }

  /** And the paced machine reaches every state of the machine without
      pauses, within 65 clocks a step. */
  lemma {:induction false} StepsAreReached(t: Ticker, ops: seq<Op>, host: seq<Op> -> Inp, draw: nat -> nat,
        at: nat, m: nat)
    returns (n: nat)
    requires Valid(t.dev)
    requires forall k :: draw(k) < 64
    ensures n <= Pause(t) + 65 * m
    ensures HostTicks(t, ops, host, draw, at, n).t.dev == HostSteps(t.dev, ops, host, m).d
    ensures HostTicks(t, ops, host, draw, at, n).ops == HostSteps(t.dev, ops, host, m).ops
    decreases m, Pause(t)
  {
    hide Next, Valid;
    if m == 0 {
      n := 0;
    } else {
      var s := Tick(t, host(ops), draw(at));
      if Acts(t) {
        n := StepsAreReached(s.t, ops + Emit(s.op), host, draw, at + 1, m - 1);
      } else {
        assert ops + [] == ops;
        n := StepsAreReached(s.t, ops, host, draw, at + 1, m);
      }
      n := n + 1;
    }
  }

  /** So delays never show: whatever one sequence of delays leads to, any
      other leads to the same device after the same operations. */
  lemma DelaysDoNotMatter(d: Dev, host: seq<Op> -> Inp, draw: nat -> nat, draw': nat -> nat, n: nat) returns (n': nat)
    requires Valid(d)
    requires forall k :: draw'(k) < 64
    ensures n' <= 65 * n
    ensures HostTicks(Ticker(d, false, 0), [], host, draw, 0, n).t.dev
         == HostTicks(Ticker(d, false, 0), [], host, draw', 0, n').t.dev
    ensures HostTicks(Ticker(d, false, 0), [], host, draw, 0, n).ops
         == HostTicks(Ticker(d, false, 0), [], host, draw', 0, n').ops
  {
    hide Next, Valid;
    var m := TicksFollowSteps(Ticker(d, false, 0), [], host, draw, 0, n);
    n' := StepsAreReached(Ticker(d, false, 0), [], host, draw', 0, m);
  }
}
