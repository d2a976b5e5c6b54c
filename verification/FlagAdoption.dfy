/** The flags z486 may decide: which ones the reference takes over, over every
    run of instructions, faults and adoptions. */
module FlagAdoption {
  import opened Platform
  import opened FlagEffects
  import F = FlagReference

  /** The reference's arithmetic flags, those its instructions left undefined
      since the last adoption, and those adopted once already. */
  datatype Flags = Flags(set_: set<Flag>, now: set<Flag>, before: set<Flag>)

  /** Complete: the flags are `result` afterwards, and of these the
      instruction really defines `defined`, whatever the table of flag
      effects says of it. */
  datatype Event =
    | Complete(d: Insn, ecx: Word32, imm: Byte, zfAfter: bool, result: set<Flag>, defined: set<Flag>)
    | Fault(kept: set<Flag>)
    | Adopt(dut: set<Flag>)

  /** What an instruction leaves undefined once AF is settled. */
  function Undefined(e: Event): set<Flag>
    requires e.Complete?
  {
    var f := FlagEffect(e.d, e.ecx, e.imm, e.zfAfter);
    if IsLogic(e.d) then f.ud - {A} else f.ud
  }

  function Written(e: Event): set<Flag>
    requires e.Complete?
  {
    FlagEffect(e.d, e.ecx, e.imm, e.zfAfter).wr
  }

  function Step(s: Flags, e: Event): Flags {
    match e
    case Complete(d, ecx, imm, zfAfter, result, _) =>
      Flags(if IsLogic(d) then result - {A} else result,
            (s.now - Written(e)) + Undefined(e), s.before - Written(e))
    case Fault(kept) => s.(set_ := kept)
    case Adopt(dut) =>
      var m := s.now + s.before;
      Flags((s.set_ - m) + (dut * m), {}, s.now)
  }

  function Run(s: Flags, events: seq<Event>): Flags {
    if events == [] then s else Step(Run(s, events[..|events| - 1]), events[|events| - 1])
  }

  const START: Flags := Flags({}, {}, {})

  /** The latest instruction to write a flag by the table: none, one that
      defined it, or one that left it undefined, with the adoptions since. */
  datatype Latest = Never | Defined | Open(adoptions: nat)

  function LatestWriter(events: seq<Event>, f: Flag): Latest {
    if events == [] then Never
    else
      var was := LatestWriter(events[..|events| - 1], f);
      match events[|events| - 1]
      case Complete(_, _, _, _, _, _) =>
        var e := events[|events| - 1];
        if f !in Written(e) then was else if f in Undefined(e) then Open(0) else Defined
      case Fault(_) => was
      case Adopt(_) => if was.Open? then Open(was.adoptions + 1) else was
  }

  /** The two sets are what the history says: a flag is in the first while its
      latest writer left it undefined and nothing has been adopted since, and
      in the second after exactly one adoption. */
  lemma {:induction false} SetsAreHistory(events: seq<Event>, f: Flag)
    ensures f in Run(START, events).now <==> LatestWriter(events, f) == Open(0)
    ensures f in Run(START, events).before <==> LatestWriter(events, f) == Open(1)
  {
    if events != [] {
      var e := events[|events| - 1];
      SetsAreHistory(events[..|events| - 1], f);
      if e.Complete? {
        UndefinedIsWritten(e.d, e.ecx, e.imm, e.zfAfter);
        hide FlagEffect, IsLogic;
      }
    }
  }

  /** After every run, an adoption takes a flag from z486 exactly when the
      flag's latest writer left it undefined and at most one adoption has
      passed since; every other flag keeps its value. */
  lemma AdoptedIff(events: seq<Event>, dut: set<Flag>, f: Flag)
    ensures var s, after := Run(START, events), Run(START, events + [Adopt(dut)]);
            var w := LatestWriter(events, f);
            f in after.set_ <==> if w.Open? && w.adoptions < 2 then f in dut else f in s.set_
  {
    SetsAreHistory(events, f);
    assert (events + [Adopt(dut)])[..|events|] == events;
    hide Written, Undefined;
  }

  /** The latest instruction to change a flag by the manual; the logic
      operations' AF is cleared. */
  function ByManual(events: seq<Event>, f: Flag): Latest {
    if events == [] then Never
    else
      var was := ByManual(events[..|events| - 1], f);
      match events[|events| - 1]
      case Complete(d, ecx, imm, _, _, _) =>
        var mark, m := F.MarkOf(F.RowFor(d, ecx, imm), f), F.Decode(d);
        if !F.Changes(mark) then was
        else if mark.U? && !(f == A && (m.AND? || m.OR? || m.XOR? || m.TEST?)) then Open(0)
        else Defined
      case Fault(_) => was
      case Adopt(_) => if was.Open? then Open(was.adoptions + 1) else was
  }

  lemma {:induction false} ManualIsTable(events: seq<Event>, f: Flag)
    requires forall e :: e in events && e.Complete? ==> !F.Departs(e.d, e.ecx, e.imm)
    ensures ByManual(events, f) == LatestWriter(events, f)
  {
    if events != [] {
      var e := events[|events| - 1];
      ManualIsTable(events[..|events| - 1], f);
      if e.Complete? {
        F.TableIsManualIff(e.d, e.ecx, e.imm, e.zfAfter);
        F.LogicMnemonics(e.d);
        hide FlagEffect, IsLogic, F.RowFor, F.Decode, F.Departs;
      }
    }
  }

  /** In the manual's terms: over every run of instructions on which the table
      does not depart from it, an adoption takes a flag from z486 exactly when
      the latest instruction to change it left it undefined and at most one
      adoption has passed since. */
  lemma AdoptedByManual(events: seq<Event>, dut: set<Flag>, f: Flag)
    requires forall e :: e in events && e.Complete? ==> !F.Departs(e.d, e.ecx, e.imm)
    ensures var s, after := Run(START, events), Run(START, events + [Adopt(dut)]);
            var w := ByManual(events, f);
            f in after.set_ <==> if w.Open? && w.adoptions < 2 then f in dut else f in s.set_
  {
    ManualIsTable(events, f);
    AdoptedIff(events, dut, f);
  }

  // ---- Instructions that the table does not know as writers ----

  /** The latest instruction to define a flag, or to leave it undefined, in
      fact: IRET and ARPL define flags and are not in the table. */
  function InFact(events: seq<Event>, f: Flag): Latest {
    if events == [] then Never
    else
      var was := InFact(events[..|events| - 1], f);
      match events[|events| - 1]
      case Complete(_, _, _, _, _, defined) =>
        var e := events[|events| - 1];
        if f in defined then Defined else if f in Undefined(e) then Open(0) else was
      case Fault(_) => was
      case Adopt(_) => if was.Open? then Open(was.adoptions + 1) else was
  }

  /** No adoption would take a flag that was last defined. */
  ghost predicate Stand(events: seq<Event>) {
    forall f, dut :: InFact(events, f) == Defined ==>
      (f in Run(START, events + [Adopt(dut)]).set_ <==> f in Run(START, events).set_)
  }

  /** The flags an adoption would take. */
  function Adoptable(events: seq<Event>): set<Flag> {
    Run(START, events).now + Run(START, events).before
  }

  /** The table knows e as a writer of every flag that it defines, or at least
      of those that are open; and of none as left undefined. */
  ghost predicate Known(events: seq<Event>, e: Event) {
    e.Complete? ==>
      forall f :: f in e.defined ==> f !in Undefined(e) && (f in Adoptable(events) ==> f in Written(e))
  }

  /** No flag that was last defined is open. */
  ghost predicate NoneOpen(events: seq<Event>) {
    forall f :: InFact(events, f) == Defined ==> f !in Adoptable(events)
  }

  lemma StandIff(events: seq<Event>)
    ensures Stand(events) <==> NoneOpen(events)
  {
    forall f, dut: set<Flag>
      ensures f in Run(START, events + [Adopt(dut)]).set_
         <==> if f in Adoptable(events) then f in dut else f in Run(START, events).set_
    {
      assert (events + [Adopt(dut)])[..|events|] == events;
    }
    if Stand(events) {
      forall f | InFact(events, f) == Defined
        ensures f !in Adoptable(events)
      {
        var dut := if f in Run(START, events).set_ then {} else {f};
        assert f in Run(START, events + [Adopt(dut)]).set_ <==> f in Run(START, events).set_;
      }
    }
  }

  ghost predicate AlwaysStand(events: seq<Event>) {
    Stand(events) && (events != [] ==> AlwaysStand(events[..|events| - 1]))
  }

  ghost predicate AlwaysKnown(events: seq<Event>) {
    events != [] ==>
      Known(events[..|events| - 1], events[|events| - 1]) && AlwaysKnown(events[..|events| - 1])
  }

  /** How a completed instruction changes what is open and what is defined. */
  lemma CompletedFlags(events: seq<Event>, f: Flag)
    requires events != [] && events[|events| - 1].Complete?
    ensures var before, e := events[..|events| - 1], events[|events| - 1];
            && (f in Adoptable(events) <==> (f in Adoptable(before) && f !in Written(e)) || f in Undefined(e))
            && (InFact(events, f) == Defined <==>
                  f in e.defined || (f !in Undefined(e) && InFact(before, f) == Defined))
  {
    hide FlagEffect, IsLogic;
  }

  lemma NoneOpenNext(events: seq<Event>)
    requires events != [] && NoneOpen(events[..|events| - 1])
    ensures NoneOpen(events) <==> Known(events[..|events| - 1], events[|events| - 1])
  {
    var before, e := events[..|events| - 1], events[|events| - 1];
    if e.Complete? {
      CompletedNext(events);
    } else {
      hide Written, Undefined;
      forall f
        ensures InFact(events, f) == Defined <==> InFact(before, f) == Defined
        ensures f in Adoptable(events) ==> f in Adoptable(before)
      {
      }
    }
  }

  lemma CompletedNext(events: seq<Event>)
    requires events != [] && NoneOpen(events[..|events| - 1]) && events[|events| - 1].Complete?
    ensures NoneOpen(events) <==> Known(events[..|events| - 1], events[|events| - 1])
  {
    hide Written, Undefined, Adoptable, InFact;
    var before, e := events[..|events| - 1], events[|events| - 1];
    forall f
      ensures f in Adoptable(events) <==> (f in Adoptable(before) && f !in Written(e)) || f in Undefined(e)
      ensures InFact(events, f) == Defined <==>
                f in e.defined || (f !in Undefined(e) && InFact(before, f) == Defined)
    {
      CompletedFlags(events, f);
    }
  }

  /** Over every run: no flag that was last defined is ever taken over if and
      only if every instruction is in the table as a writer of the open flags
      that it defines. */
  lemma {:induction false} DefinedFlagsStand(events: seq<Event>)
    ensures AlwaysStand(events) <==> AlwaysKnown(events)
  {
    hide Written, Undefined, Stand, Known, Adoptable;
    StandIff(events);
    if events == [] {
      assert NoneOpen(events);
    } else {
      DefinedFlagsStand(events[..|events| - 1]);
      if AlwaysStand(events[..|events| - 1]) {
        StandIff(events[..|events| - 1]);
        NoneOpenNext(events);
      }
    }
  }

  /** MUL leaves ZF undefined, z486's ZF is taken, and IRET sets it from the
      stack; the next adoption takes z486's again. */
  lemma InterruptReturnOverwritten()
    ensures var mul := Complete(Insn(0xF6, 0, 3, 4, false, false), 0, 0, false, {}, {C, O});
            var iret := Complete(Insn(0xCF, 0, 0, 0, false, false), 0, 0, false, {Z}, ARITH);
            var events := [mul, Adopt({}), iret];
            && InFact(events, Z) == Defined && Z in Run(START, events).set_
            && Z !in Run(START, events + [Adopt({})]).set_
  {
    var mul := Complete(Insn(0xF6, 0, 3, 4, false, false), 0, 0, false, {}, {C, O});
    var iret := Complete(Insn(0xCF, 0, 0, 0, false, false), 0, 0, false, {Z}, ARITH);
    var events := [mul, Adopt({}), iret];
    assert FlagEffect(mul.d, 0, 0, false) == Wrote({S, Z, A, P}, {}) && FlagEffect(iret.d, 0, 0, false) == NONE;
    assert [mul][..0] == [] && [mul, Adopt({})][..1] == [mul] && events[..2] == [mul, Adopt({})];
    assert Run(START, [mul]) == Flags({}, {S, Z, A, P}, {});
    assert Run(START, [mul, Adopt({})]) == Flags({}, {}, {S, Z, A, P});
    assert Run(START, events) == Flags({Z}, {}, {S, Z, A, P});
    assert (events + [Adopt({})])[..3] == events;
  }

  /** And AF, which the logic operations clear, is not taken over after one. */
  lemma AuxAfterLogic(events: seq<Event>, e: Event, dut: set<Flag>)
    requires e.Complete? && IsLogic(e.d)
    ensures A !in Run(START, events + [e] + [Adopt(dut)]).set_
  {
    LogicLeavesOnlyAux(e.d, e.ecx, e.imm, e.zfAfter);
    assert (events + [e])[..|events|] == events;
    assert LatestWriter(events + [e], A) == Defined;
    AdoptedIff(events + [e], dut, A);
    hide FlagEffect;
  }

  /** The bookkeeping in place; the two halves of its word are two sets. */
  class Register {
    var flags: set<Flag>
    var now: set<Flag>
    var before: set<Flag>

    constructor ()
      ensures State() == START
    {
      flags, now, before := {}, {}, {};
    }

    ghost function State(): Flags
      reads this
    {
      Flags(flags, now, before)
    }

    /** An instruction that completed, with the flags the reference gives it. */
    method Finish(d: Insn, ecx: Word32, imm: Byte, zfAfter: bool, result: set<Flag>, ghost defined: set<Flag>)
      modifies this
      ensures State() == Step(old(State()), Complete(d, ecx, imm, zfAfter, result, defined))
    {
      hide FlagEffect, IsLogic;
      var f := FlagEffect(d, ecx, imm, zfAfter);
      var ud := f.ud;
      flags := result;
      if IsLogic(d) {
        flags := flags - {A};
        ud := ud - {A};
      }
      now, before := (now - f.wr) + ud, before - f.wr;
    }

    /** cosim_adopt_flags. */
    method AdoptFlags(dut: set<Flag>)
      modifies this
      ensures State() == Step(old(State()), Adopt(dut))
    {
      var m := now + before;
      now, before := {}, now;
      if m != {} {
        flags := (flags - m) + (dut * m);
      }
    }
  }
}
