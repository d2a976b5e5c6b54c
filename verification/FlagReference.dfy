/** The table of flag effects against the manual: each encoding is decoded to
    its mnemonic, and the mnemonic's row in the EFLAGS cross-reference of the
    Intel 64 and IA-32 Architectures Software Developer's Manual, volume 1,
    appendix A, says what becomes of each flag; the counts of shifts are in
    their descriptions in volume 2. */
module FlagReference {
  import opened Platform
  import opened FlagEffects

  // ---- Conditions ----

  /** The eight conditions; the odd codes negate them. */
  datatype Test = Overflow | Below | Equal | BelowOrEqual | Negative | ParityEven | Less | LessOrEqual

  const TESTS: seq<Test> := [Overflow, Below, Equal, BelowOrEqual, Negative, ParityEven, Less, LessOrEqual]

  predicate Holds(t: Test, f: set<Flag>) {
    match t
    case Overflow => O in f
    case Below => C in f
    case Equal => Z in f
    case BelowOrEqual => C in f || Z in f
    case Negative => S in f
    case ParityEven => P in f
    case Less => S in f <==> O !in f
    case LessOrEqual => Z in f || (S in f <==> O !in f)
  }

  /** The outcome can turn on the flag. */
  ghost predicate TurnsOn(t: Test, x: Flag) {
    exists f: set<Flag> :: Holds(t, f + {x}) != Holds(t, f - {x})
  }

  /** A condition reads exactly the flags its outcome can turn on. */
  lemma ConditionReads(cc: nat, x: Flag)
    requires cc < 16
    ensures x in Condition(cc) <==> TurnsOn(TESTS[cc / 2], x)
  {
    var t := TESTS[cc / 2];
    assert Holds(t, {} + {x}) != Holds(t, {} - {x}) ==> TurnsOn(t, x);
    assert Holds(t, {O} + {x}) != Holds(t, {O} - {x}) ==> TurnsOn(t, x);
    hide TurnsOn;
    if x !in Condition(cc) {
      TurnsOnNot(t, x);
    }
  }

  lemma TurnsOnNot(t: Test, x: Flag)
    requires forall f: set<Flag> :: Holds(t, f + {x}) == Holds(t, f - {x})
    ensures !TurnsOn(t, x)
  {
  }

  // ---- Mnemonics ----

  datatype Mnemonic =
    | ADD | OR | ADC | SBB | AND | SUB | XOR | CMP
    | ROL | ROR | RCL | RCR | SHL | SHR | SAR | SHLD | SHRD
    | TEST | NOT | NEG | MUL | IMUL | DIV | IDIV | INC | DEC
    | DAA | DAS | AAA | AAS | AAM | AAD
    | BT | BTS | BTR | BTC | BSF | BSR | CMPXCHG | XADD
    | CMPS | SCAS | LAR | LSL | VERR | VERW | ARPL
    | CLC | STC | CMC | SAHF | LAHF | PUSHF | POPF | IRET | INTO | SALC
    | JCC(t: Test) | SETCC(t: Test) | LOOPE | LOOPNE
    | OTHER

  const GROUP1: seq<Mnemonic> := [ADD, OR, ADC, SBB, AND, SUB, XOR, CMP]
  const GROUP2: seq<Mnemonic> := [ROL, ROR, RCL, RCR, SHL, SHR, SHL, SAR]
  const GROUP3: seq<Mnemonic> := [TEST, TEST, NOT, NEG, MUL, IMUL, DIV, IDIV]
  const GROUP8: seq<Mnemonic> := [OTHER, OTHER, OTHER, OTHER, BT, BTS, BTR, BTC]

  function Decode(d: Insn): Mnemonic {
    if d.op == 0x0F then Decode0F(d)
    else if d.op < 0x40 && d.op % 8 < 6 then GROUP1[d.op / 8]
    else if 0x40 <= d.op < 0x48 then INC
    else if 0x48 <= d.op < 0x50 then DEC
    else if 0x70 <= d.op < 0x80 then JCC(TESTS[(d.op - 0x70) / 2])
    else
      match d.op
      case 0x27 => DAA case 0x2F => DAS case 0x37 => AAA case 0x3F => AAS
      case 0x63 => ARPL case 0x69 => IMUL case 0x6B => IMUL
      case 0x80 => GROUP1[d.reg] case 0x81 => GROUP1[d.reg] case 0x82 => GROUP1[d.reg] case 0x83 => GROUP1[d.reg]
      case 0x84 => TEST case 0x85 => TEST
      case 0x9C => PUSHF case 0x9D => POPF case 0x9E => SAHF case 0x9F => LAHF
      case 0xA6 => CMPS case 0xA7 => CMPS case 0xA8 => TEST case 0xA9 => TEST case 0xAE => SCAS case 0xAF => SCAS
      case 0xC0 => GROUP2[d.reg] case 0xC1 => GROUP2[d.reg]
      case 0xCE => INTO case 0xCF => IRET
      case 0xD0 => GROUP2[d.reg] case 0xD1 => GROUP2[d.reg] case 0xD2 => GROUP2[d.reg] case 0xD3 => GROUP2[d.reg]
      case 0xD4 => AAM case 0xD5 => AAD case 0xD6 => SALC
      case 0xE0 => LOOPNE case 0xE1 => LOOPE
      case 0xF5 => CMC case 0xF6 => GROUP3[d.reg] case 0xF7 => GROUP3[d.reg] case 0xF8 => CLC case 0xF9 => STC
      case 0xFE => if d.reg == 0 then INC else if d.reg == 1 then DEC else OTHER
      case 0xFF => if d.reg == 0 then INC else if d.reg == 1 then DEC else OTHER
      case _ => OTHER
  }

  function Decode0F(d: Insn): Mnemonic {
    if 0x80 <= d.op2 < 0x90 then JCC(TESTS[(d.op2 - 0x80) / 2])
    else if 0x90 <= d.op2 < 0xA0 then SETCC(TESTS[(d.op2 - 0x90) / 2])
    else
      match d.op2
      case 0x00 => if d.reg == 4 then VERR else if d.reg == 5 then VERW else OTHER
      case 0x02 => LAR case 0x03 => LSL
      case 0xA3 => BT case 0xA4 => SHLD case 0xA5 => SHLD case 0xAB => BTS case 0xAC => SHRD case 0xAD => SHRD
      case 0xAF => IMUL case 0xB0 => CMPXCHG case 0xB1 => CMPXCHG case 0xB3 => BTR
      case 0xBA => GROUP8[d.reg] case 0xBB => BTC case 0xBC => BSF case 0xBD => BSR
      case 0xC0 => XADD case 0xC1 => XADD
      case _ => OTHER
  }

  // ---- The rows ----

  /** What becomes of a flag: modified, tested, both, undefined, cleared, set,
      restored, or none of these. */
  datatype Mark = M | T | B | U | CLR | SET | R | N

  datatype Row = Row(o: Mark, s: Mark, z: Mark, a: Mark, p: Mark, c: Mark)

  const BIT: Effect := NONE.(wr := {C, O, S, A, P}, ud := {O, S, A, P})

  function SCAN(undef: bool): Effect {
    Wrote({C, O, S, A, P}, {}).(destUndef := undef)
  }

  const ALL: Row := Row(M, M, M, M, M, M)
  const NOTHING: Row := Row(N, N, N, N, N, N)

  /** The count of a shift or rotate, of five bits. */
  function CountOf(d: Insn, ecx: Word32, imm: Byte): nat {
    if d.op == 0xD0 || d.op == 0xD1 then 1
    else if d.op == 0xD2 || d.op == 0xD3 || (d.op == 0x0F && d.op2 % 2 == 1) then ecx % 32
    else imm % 32
  }

  /** The size of the operand, in bits. */
  function SizeOf(d: Insn): nat {
    if d.op != 0x0F && d.op % 2 == 0 then 8 else if d.op32 then 32 else 16
  }

  function Mark1(t: Test, x: Flag): Mark {
    match t
    case Overflow => if x == O then T else N
    case Below => if x == C then T else N
    case Equal => if x == Z then T else N
    case BelowOrEqual => if x == C || x == Z then T else N
    case Negative => if x == S then T else N
    case ParityEven => if x == P then T else N
    case Less => if x == S || x == O then T else N
    case LessOrEqual => if x == S || x == O || x == Z then T else N
  }

  function Tested(t: Test): Row {
    Row(Mark1(t, O), Mark1(t, S), Mark1(t, Z), N, Mark1(t, P), Mark1(t, C))
  }

  /** Rotates and shifts: OF is defined for a count of one. */
  function ShiftRow(m: Mnemonic, count: nat, size: nat): Row {
    var o := if count == 1 then M else U;
    if count == 0 then NOTHING
    else
      match m
      case ROL => Row(o, N, N, N, N, M)
      case ROR => Row(o, N, N, N, N, M)
      case RCL => Row(o, N, N, N, N, B)
      case RCR => Row(o, N, N, N, N, B)
      case SHL => Row(o, M, M, U, M, if count >= size then U else M)
      case SHR => Row(o, M, M, U, M, if count >= size then U else M)
      case SAR => Row(o, M, M, U, M, M)
      case _ => if count > size then Row(U, U, U, U, U, U) else Row(o, M, M, U, M, M)
  }

  predicate IsShift(m: Mnemonic) {
    m.ROL? || m.ROR? || m.RCL? || m.RCR? || m.SHL? || m.SHR? || m.SAR? || m.SHLD? || m.SHRD?
  }

  const LOGICAL: Row := Row(CLR, M, M, U, M, CLR)
  const PRODUCT: Row := Row(M, U, U, U, U, M)
  const UNDEFINED: Row := Row(U, U, U, U, U, U)
  const COUNTED: Row := Row(M, M, M, M, M, N)
  const BITTEST: Row := Row(U, U, N, U, U, M)
  const SCANNED: Row := Row(U, U, M, U, U, U)
  const ZERO_ONLY: Row := Row(N, N, M, N, N, N)
  const CARRYING: Row := Row(M, M, M, M, M, B)
  const DECIMAL: Row := Row(U, M, M, B, M, B)
  const ASCII: Row := Row(U, U, U, B, U, M)
  const ASCII2: Row := Row(U, M, M, U, M, U)
  const RESTORED: Row := Row(R, R, R, R, R, R)

  /** The rows, in the manual's order of columns: OF, SF, ZF, AF, PF, CF. CMC
      reads what it complements; LAHF, PUSHF and SALC read what they store. */
  function RowOf(m: Mnemonic): Row {
    if m.JCC? || m.SETCC? then Tested(m.t)
    else if m.ADD? || m.SUB? || m.CMP? || m.NEG? || m.CMPXCHG? || m.XADD? || m.CMPS? || m.SCAS? then ALL
    else if m.ADC? || m.SBB? then CARRYING
    else if m.AND? || m.OR? || m.XOR? || m.TEST? then LOGICAL
    else if m.MUL? || m.IMUL? then PRODUCT
    else if m.DIV? || m.IDIV? then UNDEFINED
    else if m.INC? || m.DEC? then COUNTED
    else if m.DAA? || m.DAS? then DECIMAL
    else if m.AAA? || m.AAS? then ASCII
    else if m.AAM? || m.AAD? then ASCII2
    else if m.BT? || m.BTS? || m.BTR? || m.BTC? then BITTEST
    else if m.BSF? || m.BSR? then SCANNED
    else if m.LAR? || m.LSL? || m.VERR? || m.VERW? || m.ARPL? then ZERO_ONLY
    else if m.POPF? || m.IRET? then RESTORED
    else ByFlag(m)
  }

  function ByFlag(m: Mnemonic): Row {
    if m.CLC? then Row(N, N, N, N, N, CLR)
    else if m.STC? then Row(N, N, N, N, N, SET)
    else if m.CMC? then Row(N, N, N, N, N, B)
    else if m.SAHF? then Row(N, R, R, R, R, R)
    else if m.LAHF? then Row(N, T, T, T, T, T)
    else if m.PUSHF? then Row(T, T, T, T, T, T)
    else if m.INTO? then Row(T, N, N, N, N, N)
    else if m.SALC? then Row(N, N, N, N, N, T)
    else if m.LOOPE? || m.LOOPNE? then Row(N, N, T, N, N, N)
    else NOTHING
  }

  /** An instruction's row: that of its mnemonic, and nothing for a repeated
      string operation that does not run once. */
  function RowFor(d: Insn, ecx: Word32, imm: Byte): Row {
    var m := Decode(d);
    if IsShift(m) then ShiftRow(m, CountOf(d, ecx, imm), SizeOf(d))
    else if (m.CMPS? || m.SCAS?) && d.rep && ecx == 0 then NOTHING
    else RowOf(m)
  }

  /** A flag's mark in a row. */
  function MarkOf(r: Row, x: Flag): Mark {
    match x case O => r.o case S => r.s case Z => r.z case A => r.a case P => r.p case C => r.c
  }

  predicate Changes(m: Mark) {
    m.M? || m.B? || m.U? || m.CLR? || m.SET? || m.R?
  }

  // ---- The table is the manual ----

  predicate AgreesAt(e: Effect, mark: Mark, x: Flag) {
    && (x in e.wr <==> Changes(mark))
    && (x in e.ud <==> mark.U?)
    && (x in e.rd <==> mark.T? || mark.B?)
  }

  /** Flag by flag. */
  predicate Agrees(e: Effect, r: Row) {
    && AgreesAt(e, r.o, O) && AgreesAt(e, r.s, S) && AgreesAt(e, r.z, Z)
    && AgreesAt(e, r.a, A) && AgreesAt(e, r.p, P) && AgreesAt(e, r.c, C)
  }

  /** Where the table departs from it: it does not know ARPL and IRET as
      writers, nor INTO, PUSHF and SALC as readers; and after SAR by the
      operand's size or more it takes CF for undefined, as after SHL and SHR. */
  predicate Departs(d: Insn, ecx: Word32, imm: Byte) {
    Unknown(Decode(d)) || (Decode(d).SAR? && CountOf(d, ecx, imm) >= SizeOf(d))
  }

  predicate Unknown(m: Mnemonic) {
    m.ARPL? || m.IRET? || m.INTO? || m.PUSHF? || m.SALC?
  }

  /** For every encoding and operands: the flags written, left undefined and
      read are those of the manual if and only if it is none of these. */
  lemma TableIsManualIff(d: Insn, ecx: Word32, imm: Byte, zfAfter: bool)
    ensures Agrees(FlagEffect(d, ecx, imm, zfAfter), RowFor(d, ecx, imm)) <==> !Departs(d, ecx, imm)
  {
    if d.op == 0x0F {
      TwoByteIsManual(d, ecx, imm, zfAfter);
    } else {
      OneByteIsManual(d, ecx, imm);
    }
  }

  lemma ArithmeticFacts()
    ensures Agrees(NONE, NOTHING) && Agrees(Wrote({}, {}), ALL) && Agrees(Wrote({A}, {}), LOGICAL)
    ensures Agrees(Wrote({}, {C}), CARRYING) && Agrees(NONE.(wr := {O, S, Z, A, P}), COUNTED)
    ensures Agrees(Wrote({S, Z, A, P}, {}), PRODUCT) && Agrees(Wrote(ARITH, {}), UNDEFINED)
  {
  }

  lemma DecimalFacts()
    ensures Agrees(Wrote({O}, {C, A}), DECIMAL) && Agrees(Wrote({O, S, Z, P}, {A}), ASCII)
    ensures Agrees(Wrote({O, A, C}, {}), ASCII2)
  {
  }

  lemma TransferFacts()
    ensures Agrees(Wrote({}, {}), RESTORED)
    ensures Agrees(NONE.(wr := {S, Z, A, P, C}), Row(N, R, R, R, R, R))
    ensures Agrees(NONE.(rd := {S, Z, A, P, C}), Row(N, T, T, T, T, T))
    ensures !Agrees(NONE, ZERO_ONLY) && !Agrees(NONE, RESTORED)
    ensures !Agrees(NONE, Row(T, N, N, N, N, N)) && !Agrees(NONE, Row(T, T, T, T, T, T))
    ensures !Agrees(NONE, Row(N, N, N, N, N, T))
  {
  }

  lemma BitFacts()
    ensures Agrees(NONE.(rd := {Z}, branch := true), Row(N, N, T, N, N, N)) && Agrees(NONE.(wr := {Z}), ZERO_ONLY)
    ensures Agrees(NONE.(wr := {C}, rd := {C}), Row(N, N, N, N, N, B))
    ensures Agrees(NONE.(wr := {C}), Row(N, N, N, N, N, CLR)) && Agrees(NONE.(wr := {C}), Row(N, N, N, N, N, SET))
    ensures Agrees(BIT, BITTEST) && Agrees(SCAN(true), SCANNED) && Agrees(SCAN(false), SCANNED)
  {
  }

  /** One opcode's effect against its row. */
  ghost predicate Right(e: Effect, d: Insn, ecx: Word32, imm: Byte) {
    Agrees(e, RowFor(d, ecx, imm)) <==> !Departs(d, ecx, imm)
  }

  /** What has to be shown of a plain mnemonic. */
  lemma PlainRow(e: Effect, d: Insn, ecx: Word32, imm: Byte, m: Mnemonic)
    requires Decode(d) == m && !IsShift(m) && !m.CMPS? && !m.SCAS?
    requires Agrees(e, RowOf(m)) <==> !Unknown(m)
    ensures Right(e, d, ecx, imm)
  {
    hide Decode, RowOf, Agrees;
  }

  lemma OneByteIsManual(d: Insn, ecx: Word32, imm: Byte)
    requires d.op != 0x0F
    ensures Right(OneByte(d, ecx, imm), d, ecx, imm)
  {
    hide Right, OneByte;
    var op := d.op;
    if op < 0x40 && op % 8 < 6 {
      AluIsManual(d, ecx, imm, op / 8);
    } else if op < 0x40 {
      AdjustIsManual(d, ecx, imm);
    } else if op < 0x50 {
      CounterIsManual(d, ecx, imm);
    } else if op < 0x70 {
      LowIsManual(d, ecx, imm);
    } else if op < 0x80 {
      BranchIsManual(d, ecx, imm);
    } else if op < 0x84 {
      AluIsManual(d, ecx, imm, d.reg);
    } else if op < 0xA0 {
      MiddleIsManual(d, ecx, imm);
    } else if op < 0xC0 {
      StringIsManual(d, ecx, imm);
    } else if Shift(op) {
      ShiftIsManual(d, ecx, imm);
    } else if op < 0xE0 {
      ReturnIsManual(d, ecx, imm);
    } else if op == 0xF6 || op == 0xF7 {
      Group3IsManual(d, ecx, imm);
    } else {
      HighIsManual(d, ecx, imm);
    }
  }

  lemma AluIsManual(d: Insn, ecx: Word32, imm: Byte, k: nat)
    requires (d.op < 0x40 && d.op % 8 < 6 && k == d.op / 8) || (0x80 <= d.op <= 0x83 && k == d.reg)
    ensures Right(OneByte(d, ecx, imm), d, ecx, imm)
  {
    assert k < 8 && Decode(d) == GROUP1[k] && OneByte(d, ecx, imm) == Alu(k);
    AluRow(k);
    hide Decode, OneByte, RowOf, Alu, Agrees;
  }

  lemma AluRow(k: nat)
    requires k < 8
    ensures !IsShift(GROUP1[k]) && Agrees(Alu(k), RowOf(GROUP1[k]))
    ensures !Unknown(GROUP1[k]) && !GROUP1[k].SAR? && !GROUP1[k].CMPS? && !GROUP1[k].SCAS?
  {
    hide Agrees;
    ArithmeticFacts();
  }

  lemma AdjustDecodes(d: Insn)
    requires d.op < 0x40 && d.op % 8 >= 6 && d.op != 0x0F
    ensures Decode(d) ==
            if d.op == 0x27 then DAA
            else if d.op == 0x2F then DAS
            else if d.op == 0x37 then AAA
            else if d.op == 0x3F then AAS
            else OTHER
  {
  }

  lemma AdjustEffects(d: Insn, ecx: Word32, imm: Byte)
    requires d.op < 0x40 && d.op % 8 >= 6 && d.op != 0x0F
    ensures OneByte(d, ecx, imm) ==
            if d.op == 0x27 then Wrote({O}, {C, A})
            else if d.op == 0x2F then Wrote({O}, {C, A})
            else if d.op == 0x37 then Wrote({O, S, Z, P}, {A})
            else if d.op == 0x3F then Wrote({O, S, Z, P}, {A})
            else NONE
  {
  }

  lemma AdjustFacts1()
    ensures Agrees(Wrote({O}, {C, A}), RowOf(DAA))
    ensures Agrees(Wrote({O}, {C, A}), RowOf(DAS))
    ensures Agrees(Wrote({O, S, Z, P}, {A}), RowOf(AAA))
  {
    hide Agrees, SCAN;
    DecimalFacts();
  }

  lemma AdjustFacts2()
    ensures Agrees(Wrote({O, S, Z, P}, {A}), RowOf(AAS))
    ensures Agrees(NONE, RowOf(OTHER))
  {
    hide Agrees, SCAN;
    ArithmeticFacts();
    DecimalFacts();
  }

  lemma AdjustIsManual(d: Insn, ecx: Word32, imm: Byte)
    requires d.op < 0x40 && d.op % 8 >= 6 && d.op != 0x0F
    ensures Right(OneByte(d, ecx, imm), d, ecx, imm)
  {
    hide Decode, Right, OneByte, TwoByte, RowOf, Agrees;
    AdjustDecodes(d);
    AdjustEffects(d, ecx, imm);
    AdjustFacts1();
    AdjustFacts2();
    PlainRow(OneByte(d, ecx, imm), d, ecx, imm, Decode(d));
  }

  lemma CounterDecodes(d: Insn)
    requires 0x40 <= d.op < 0x50
    ensures Decode(d) ==
            if d.op < 0x48 then INC
            else DEC
  {
  }

  lemma CounterEffects(d: Insn, ecx: Word32, imm: Byte)
    requires 0x40 <= d.op < 0x50
    ensures OneByte(d, ecx, imm) ==
            if d.op < 0x48 then NONE.(wr := {O, S, Z, A, P})
            else NONE.(wr := {O, S, Z, A, P})
  {
  }

  lemma CounterFacts()
    ensures Agrees(NONE.(wr := {O, S, Z, A, P}), RowOf(INC))
    ensures Agrees(NONE.(wr := {O, S, Z, A, P}), RowOf(DEC))
  {
    hide Agrees, SCAN;
    ArithmeticFacts();
    DecimalFacts();
    TransferFacts();
    BitFacts();
  }

  lemma CounterIsManual(d: Insn, ecx: Word32, imm: Byte)
    requires 0x40 <= d.op < 0x50
    ensures Right(OneByte(d, ecx, imm), d, ecx, imm)
  {
    hide Decode, Right, OneByte, TwoByte, RowOf, Agrees;
    CounterDecodes(d);
    CounterEffects(d, ecx, imm);
    CounterFacts();
    PlainRow(OneByte(d, ecx, imm), d, ecx, imm, Decode(d));
  }

  lemma LowDecodes(d: Insn)
    requires 0x50 <= d.op < 0x70
    ensures Decode(d) ==
            if d.op == 0x63 then ARPL
            else if d.op == 0x69 || d.op == 0x6B then IMUL
            else OTHER
  {
  }

  lemma LowEffects(d: Insn, ecx: Word32, imm: Byte)
    requires 0x50 <= d.op < 0x70
    ensures OneByte(d, ecx, imm) ==
            if d.op == 0x63 then NONE
            else if d.op == 0x69 || d.op == 0x6B then Wrote({S, Z, A, P}, {})
            else NONE
  {
  }

  lemma LowFacts()
    ensures !Agrees(NONE, RowOf(ARPL))
    ensures Agrees(Wrote({S, Z, A, P}, {}), RowOf(IMUL))
    ensures Agrees(NONE, RowOf(OTHER))
  {
    hide Agrees, SCAN;
    ArithmeticFacts();
    DecimalFacts();
    TransferFacts();
    BitFacts();
  }

  lemma LowIsManual(d: Insn, ecx: Word32, imm: Byte)
    requires 0x50 <= d.op < 0x70
    ensures Right(OneByte(d, ecx, imm), d, ecx, imm)
  {
    hide Decode, Right, OneByte, TwoByte, RowOf, Agrees;
    LowDecodes(d);
    LowEffects(d, ecx, imm);
    LowFacts();
    PlainRow(OneByte(d, ecx, imm), d, ecx, imm, Decode(d));
  }

  lemma TestedRow(cc: nat, branch: bool)
    requires cc < 16
    ensures Agrees(NONE.(rd := Condition(cc), branch := branch), Tested(TESTS[cc / 2]))
  {
  }

  lemma BranchIsManual(d: Insn, ecx: Word32, imm: Byte)
    requires 0x70 <= d.op < 0x80
    ensures Right(OneByte(d, ecx, imm), d, ecx, imm)
  {
    var e, m, cc := OneByte(d, ecx, imm), Decode(d), d.op - 0x70;
    assert cc == d.op % 0x10 && m == JCC(TESTS[cc / 2]) && e == NONE.(rd := Condition(cc), branch := true);
    hide Decode, Right, Condition, Tested, Agrees, OneByte;
    TestedRow(cc, true);
    PlainRow(e, d, ecx, imm, m);
  }

  lemma MiddleDecodes(d: Insn)
    requires 0x84 <= d.op < 0xA0
    ensures Decode(d) ==
            if d.op <= 0x85 then TEST
            else if d.op == 0x9C then PUSHF
            else if d.op == 0x9D then POPF
            else if d.op == 0x9E then SAHF
            else if d.op == 0x9F then LAHF
            else OTHER
  {
  }

  lemma MiddleEffects(d: Insn, ecx: Word32, imm: Byte)
    requires 0x84 <= d.op < 0xA0
    ensures OneByte(d, ecx, imm) ==
            if d.op <= 0x85 then Wrote({A}, {})
            else if d.op == 0x9C then NONE
            else if d.op == 0x9D then Wrote({}, {})
            else if d.op == 0x9E then NONE.(wr := {S, Z, A, P, C})
            else if d.op == 0x9F then NONE.(rd := {S, Z, A, P, C})
            else NONE
  {
  }

  lemma MiddleFacts1()
    ensures Agrees(Wrote({A}, {}), RowOf(TEST))
    ensures !Agrees(NONE, RowOf(PUSHF))
    ensures Agrees(Wrote({}, {}), RowOf(POPF))
  {
    hide Agrees, SCAN;
    ArithmeticFacts();
    TransferFacts();
  }

  lemma MiddleFacts2()
    ensures Agrees(NONE.(wr := {S, Z, A, P, C}), RowOf(SAHF))
    ensures Agrees(NONE.(rd := {S, Z, A, P, C}), RowOf(LAHF))
    ensures Agrees(NONE, RowOf(OTHER))
  {
    hide Agrees, SCAN;
    ArithmeticFacts();
    TransferFacts();
  }

  lemma MiddleIsManual(d: Insn, ecx: Word32, imm: Byte)
    requires 0x84 <= d.op < 0xA0
    ensures Right(OneByte(d, ecx, imm), d, ecx, imm)
  {
    hide Decode, Right, OneByte, TwoByte, RowOf, Agrees;
    MiddleDecodes(d);
    MiddleEffects(d, ecx, imm);
    MiddleFacts1();
    MiddleFacts2();
    PlainRow(OneByte(d, ecx, imm), d, ecx, imm, Decode(d));
  }

  lemma StringDecodes(d: Insn)
    requires 0xA0 <= d.op < 0xC0
    ensures Decode(d) == (if d.op == 0xA6 || d.op == 0xA7 then CMPS else if d.op == 0xA8 || d.op == 0xA9 then TEST
                 else if d.op == 0xAE || d.op == 0xAF then SCAS else OTHER)
  {
  }

  lemma StringIsManual(d: Insn, ecx: Word32, imm: Byte)
    requires 0xA0 <= d.op < 0xC0
    ensures Right(OneByte(d, ecx, imm), d, ecx, imm)
  {
    hide Decode;
    StringDecodes(d);
    var e, m := OneByte(d, ecx, imm), Decode(d);
  }

  lemma ShiftIsManual(d: Insn, ecx: Word32, imm: Byte)
    requires Shift(d.op)
    ensures Right(OneByte(d, ecx, imm), d, ecx, imm)
  {
    hide Decode, OneByte, ShiftEffect, ShiftRow, Agrees, CountOf, SizeOf;
    ShiftDecodes(d);
    ShiftEffects(d, ecx, imm);
    ShiftMnemonic(d.reg);
    ShiftAgrees(d, CountOf(d, ecx, imm));
  }

  lemma ShiftDecodes(d: Insn)
    requires Shift(d.op)
    ensures Decode(d) == GROUP2[d.reg]
  {
  }

  lemma ShiftEffects(d: Insn, ecx: Word32, imm: Byte)
    requires Shift(d.op)
    ensures OneByte(d, ecx, imm) == ShiftEffect(d, CountOf(d, ecx, imm))
  {
    hide ShiftEffect;
    LowFive(ecx);
  }

  lemma LowFive(x: Word32)
    ensures x % 0x100 % 32 == x % 32
  {
    assert x == x / 0x100 * 8 * 32 + x % 0x100;
  }

  lemma ShiftMnemonic(k: nat)
    requires k < 8
    ensures IsShift(GROUP2[k]) && GROUP2[k] != SHLD && GROUP2[k] != SHRD && (GROUP2[k] == SAR <==> k == 7)
  {
  }

  lemma ShiftAgrees(d: Insn, cnt: nat)
    requires Shift(d.op)
    ensures Agrees(ShiftEffect(d, cnt), ShiftRow(GROUP2[d.reg], cnt, SizeOf(d))) <==> !(d.reg == 7 && cnt >= SizeOf(d))
  {
    Group2Is(d.reg);
    if d.reg <= 3 {
      RotateAgrees(d, cnt, SizeOf(d), GROUP2[d.reg]);
    } else {
      ShiftedAgrees(d, cnt, SizeOf(d), GROUP2[d.reg]);
    }
    hide GROUP2, Agrees, ShiftEffect, ShiftRow, SizeOf;
  }

  lemma Group2Is(k: Field)
    ensures |GROUP2| == 8
    ensures GROUP2[k] == if k == 0 then ROL else if k == 1 then ROR else if k == 2 then RCL else if k == 3 then RCR
                         else if k == 5 then SHR else if k == 7 then SAR else SHL
  {
  }

  lemma RotateAgrees(d: Insn, cnt: nat, size: nat, m: Mnemonic)
    requires d.reg <= 3
    requires m == if d.reg == 0 then ROL else if d.reg == 1 then ROR else if d.reg == 2 then RCL else RCR
    ensures Agrees(ShiftEffect(d, cnt), ShiftRow(m, cnt, size))
  {
  }

  lemma ShiftedAgrees(d: Insn, cnt: nat, size: nat, m: Mnemonic)
    requires 3 < d.reg && size == (if d.op % 2 == 0 then 8 else if d.op32 then 32 else 16)
    requires m == if d.reg == 5 then SHR else if d.reg == 7 then SAR else SHL
    ensures Agrees(ShiftEffect(d, cnt), ShiftRow(m, cnt, size)) <==> !(d.reg == 7 && cnt >= size)
  {
  }

  lemma ReturnDecodes(d: Insn)
    requires 0xC0 <= d.op < 0xE0 && !Shift(d.op)
    ensures Decode(d) ==
            if d.op == 0xCE then INTO
            else if d.op == 0xCF then IRET
            else if d.op == 0xD4 then AAM
            else if d.op == 0xD5 then AAD
            else if d.op == 0xD6 then SALC
            else OTHER
  {
  }

  lemma ReturnEffects(d: Insn, ecx: Word32, imm: Byte)
    requires 0xC0 <= d.op < 0xE0 && !Shift(d.op)
    ensures OneByte(d, ecx, imm) ==
            if d.op == 0xCE then NONE
            else if d.op == 0xCF then NONE
            else if d.op == 0xD4 then Wrote({O, A, C}, {})
            else if d.op == 0xD5 then Wrote({O, A, C}, {})
            else if d.op == 0xD6 then NONE
            else NONE
  {
  }

  lemma ReturnFacts1()
    ensures !Agrees(NONE, RowOf(INTO))
    ensures !Agrees(NONE, RowOf(IRET))
    ensures Agrees(Wrote({O, A, C}, {}), RowOf(AAM))
  {
    hide Agrees, SCAN;
    DecimalFacts();
    TransferFacts();
  }

  lemma ReturnFacts2()
    ensures Agrees(Wrote({O, A, C}, {}), RowOf(AAD))
    ensures !Agrees(NONE, RowOf(SALC))
    ensures Agrees(NONE, RowOf(OTHER))
  {
    hide Agrees, SCAN;
    ArithmeticFacts();
    DecimalFacts();
    TransferFacts();
  }

  lemma ReturnIsManual(d: Insn, ecx: Word32, imm: Byte)
    requires 0xC0 <= d.op < 0xE0 && !Shift(d.op)
    ensures Right(OneByte(d, ecx, imm), d, ecx, imm)
  {
    hide Decode, Right, OneByte, TwoByte, RowOf, Agrees;
    ReturnDecodes(d);
    ReturnEffects(d, ecx, imm);
    ReturnFacts1();
    ReturnFacts2();
    PlainRow(OneByte(d, ecx, imm), d, ecx, imm, Decode(d));
  }

  lemma Group3IsManual(d: Insn, ecx: Word32, imm: Byte)
    requires d.op == 0xF6 || d.op == 0xF7
    ensures Right(OneByte(d, ecx, imm), d, ecx, imm)
  {
    var e, m := OneByte(d, ecx, imm), Decode(d);
    assert m == GROUP3[d.reg] && e == Group3(d.reg);
    Group3Row(d.reg);
    hide Decode, Right, OneByte, Group3, RowOf, Agrees;
    PlainRow(e, d, ecx, imm, m);
  }

  lemma Group3Row(k: nat)
    requires k < 8
    ensures !IsShift(GROUP3[k]) && Agrees(Group3(k), RowOf(GROUP3[k]))
    ensures !Unknown(GROUP3[k]) && !GROUP3[k].CMPS? && !GROUP3[k].SCAS?
  {
    hide Agrees;
    ArithmeticFacts();
  }

  lemma HighDecodes(d: Insn)
    requires 0xE0 <= d.op && d.op != 0xF6 && d.op != 0xF7
    ensures Decode(d) ==
            if d.op == 0xE0 then LOOPNE
            else if d.op == 0xE1 then LOOPE
            else if d.op == 0xF5 then CMC
            else if d.op == 0xF8 then CLC
            else if d.op == 0xF9 then STC
            else if d.op >= 0xFE && d.reg == 0 then INC
            else if d.op >= 0xFE && d.reg == 1 then DEC
            else OTHER
  {
  }

  lemma HighEffects(d: Insn, ecx: Word32, imm: Byte)
    requires 0xE0 <= d.op && d.op != 0xF6 && d.op != 0xF7
    ensures OneByte(d, ecx, imm) ==
            if d.op == 0xE0 then NONE.(rd := {Z}, branch := true)
            else if d.op == 0xE1 then NONE.(rd := {Z}, branch := true)
            else if d.op == 0xF5 then NONE.(wr := {C}, rd := {C})
            else if d.op == 0xF8 then NONE.(wr := {C})
            else if d.op == 0xF9 then NONE.(wr := {C})
            else if d.op >= 0xFE && d.reg == 0 then NONE.(wr := {O, S, Z, A, P})
            else if d.op >= 0xFE && d.reg == 1 then NONE.(wr := {O, S, Z, A, P})
            else NONE
  {
  }

  lemma HighFacts1()
    ensures Agrees(NONE.(rd := {Z}, branch := true), RowOf(LOOPNE))
    ensures Agrees(NONE.(rd := {Z}, branch := true), RowOf(LOOPE))
    ensures Agrees(NONE.(wr := {C}, rd := {C}), RowOf(CMC))
  {
    hide Agrees, SCAN;
    BitFacts();
  }

  lemma HighFacts2()
    ensures Agrees(NONE.(wr := {C}), RowOf(CLC))
    ensures Agrees(NONE.(wr := {C}), RowOf(STC))
    ensures Agrees(NONE.(wr := {O, S, Z, A, P}), RowOf(INC))
  {
    hide Agrees, SCAN;
    ArithmeticFacts();
    BitFacts();
  }

  lemma HighFacts3()
    ensures Agrees(NONE.(wr := {O, S, Z, A, P}), RowOf(DEC))
    ensures Agrees(NONE, RowOf(OTHER))
  {
    hide Agrees, SCAN;
    ArithmeticFacts();
  }

  lemma HighIsManual(d: Insn, ecx: Word32, imm: Byte)
    requires 0xE0 <= d.op && d.op != 0xF6 && d.op != 0xF7
    ensures Right(OneByte(d, ecx, imm), d, ecx, imm)
  {
    hide Decode, Right, OneByte, TwoByte, RowOf, Agrees;
    HighDecodes(d);
    HighEffects(d, ecx, imm);
    HighFacts1();
    HighFacts2();
    HighFacts3();
    PlainRow(OneByte(d, ecx, imm), d, ecx, imm, Decode(d));
  }

  lemma TwoByteIsManual(d: Insn, ecx: Word32, imm: Byte, zfAfter: bool)
    requires d.op == 0x0F
    ensures Right(TwoByte(d, ecx, imm, zfAfter), d, ecx, imm)
  {
    hide Right, TwoByte;
    if 0x80 <= d.op2 < 0xA0 {
      ConditionalIsManual(d, ecx, imm, zfAfter);
    } else if d.op2 < 0x80 {
      SystemIsManual(d, ecx, imm, zfAfter);
    } else if d.op2 in {0xA4, 0xA5, 0xAC, 0xAD} {
      DoubleIsManual(d, ecx, imm, zfAfter);
    } else {
      BitsAreManual(d, ecx, imm, zfAfter);
    }
  }

  lemma ConditionalDecodes(d: Insn)
    requires d.op == 0x0F && 0x80 <= d.op2 < 0xA0
    ensures var cc := d.op2 % 0x10;
            |TESTS| == 8 && Decode(d) == if d.op2 < 0x90 then JCC(TESTS[cc / 2]) else SETCC(TESTS[cc / 2])
  {
  }

  lemma ConditionalEffects(d: Insn, ecx: Word32, imm: Byte, zfAfter: bool)
    requires d.op == 0x0F && 0x80 <= d.op2 < 0xA0
    ensures TwoByte(d, ecx, imm, zfAfter) == NONE.(rd := Condition(d.op2 % 0x10), branch := d.op2 < 0x90)
  {
    hide Condition;
  }

  lemma ConditionalIsManual(d: Insn, ecx: Word32, imm: Byte, zfAfter: bool)
    requires d.op == 0x0F && 0x80 <= d.op2 < 0xA0
    ensures Right(TwoByte(d, ecx, imm, zfAfter), d, ecx, imm)
  {
    hide Decode, Right, Condition, Tested, Agrees, TwoByte;
    var e, m, cc := TwoByte(d, ecx, imm, zfAfter), Decode(d), d.op2 % 0x10;
    ConditionalDecodes(d);
    ConditionalEffects(d, ecx, imm, zfAfter);
    TestedRow(cc, d.op2 < 0x90);
    PlainRow(e, d, ecx, imm, m);
  }

  lemma SystemDecodes(d: Insn)
    requires d.op == 0x0F && d.op2 < 0x80
    ensures Decode(d) ==
            if d.op2 == 0 && d.reg == 4 then VERR
            else if d.op2 == 0 && d.reg == 5 then VERW
            else if d.op2 == 2 then LAR
            else if d.op2 == 3 then LSL
            else OTHER
  {
  }

  lemma SystemEffects(d: Insn, ecx: Word32, imm: Byte, zfAfter: bool)
    requires d.op == 0x0F && d.op2 < 0x80
    ensures TwoByte(d, ecx, imm, zfAfter) ==
            if d.op2 == 0 && d.reg == 4 then NONE.(wr := {Z})
            else if d.op2 == 0 && d.reg == 5 then NONE.(wr := {Z})
            else if d.op2 == 2 then NONE.(wr := {Z})
            else if d.op2 == 3 then NONE.(wr := {Z})
            else NONE
  {
  }

  lemma SystemFacts1()
    ensures Agrees(NONE.(wr := {Z}), RowOf(VERR))
    ensures Agrees(NONE.(wr := {Z}), RowOf(VERW))
    ensures Agrees(NONE.(wr := {Z}), RowOf(LAR))
  {
    hide Agrees, SCAN;
    BitFacts();
  }

  lemma SystemFacts2()
    ensures Agrees(NONE.(wr := {Z}), RowOf(LSL))
    ensures Agrees(NONE, RowOf(OTHER))
  {
    hide Agrees, SCAN;
    ArithmeticFacts();
    BitFacts();
  }

  lemma SystemIsManual(d: Insn, ecx: Word32, imm: Byte, zfAfter: bool)
    requires d.op == 0x0F && d.op2 < 0x80
    ensures Right(TwoByte(d, ecx, imm, zfAfter), d, ecx, imm)
  {
    hide Decode, Right, OneByte, TwoByte, RowOf, Agrees;
    SystemDecodes(d);
    SystemEffects(d, ecx, imm, zfAfter);
    SystemFacts1();
    SystemFacts2();
    PlainRow(TwoByte(d, ecx, imm, zfAfter), d, ecx, imm, Decode(d));
  }

  lemma DoubleIsManual(d: Insn, ecx: Word32, imm: Byte, zfAfter: bool)
    requires d.op == 0x0F && d.op2 in {0xA4, 0xA5, 0xAC, 0xAD}
    ensures Right(TwoByte(d, ecx, imm, zfAfter), d, ecx, imm)
  {
    hide Decode, TwoByte, CountOf;
    DoubleDecodes(d);
    DoubleEffects(d, ecx, imm, zfAfter);
  }

  lemma DoubleDecodes(d: Insn)
    requires d.op == 0x0F && d.op2 in {0xA4, 0xA5, 0xAC, 0xAD}
    ensures Decode(d) == SHLD || Decode(d) == SHRD
  {
  }

  lemma DoubleEffects(d: Insn, ecx: Word32, imm: Byte, zfAfter: bool)
    requires d.op == 0x0F && d.op2 in {0xA4, 0xA5, 0xAC, 0xAD}
    ensures TwoByte(d, ecx, imm, zfAfter) == DoubleShift(d, CountOf(d, ecx, imm))
  {
    hide DoubleShift;
    LowFive(ecx);
  }

  lemma BitsDecodes(d: Insn)
    requires d.op == 0x0F && 0xA0 <= d.op2 && d.op2 !in {0xA4, 0xA5, 0xAC, 0xAD}
    ensures Decode(d) ==
            if d.op2 == 0xA3 then BT
            else if d.op2 == 0xAB then BTS
            else if d.op2 == 0xB3 then BTR
            else if d.op2 == 0xBB then BTC
            else if d.op2 == 0xBA && d.reg >= 4 then GROUP8[d.reg]
            else if d.op2 == 0xAF then IMUL
            else if d.op2 == 0xB0 || d.op2 == 0xB1 then CMPXCHG
            else if d.op2 == 0xBC then BSF
            else if d.op2 == 0xBD then BSR
            else if d.op2 == 0xC0 || d.op2 == 0xC1 then XADD
            else OTHER
  {
    BitGroup(d.reg);
  }

  lemma BitsEffects(d: Insn, ecx: Word32, imm: Byte, zfAfter: bool)
    requires d.op == 0x0F && 0xA0 <= d.op2 && d.op2 !in {0xA4, 0xA5, 0xAC, 0xAD}
    ensures TwoByte(d, ecx, imm, zfAfter) ==
            if d.op2 == 0xA3 then BIT
            else if d.op2 == 0xAB then BIT
            else if d.op2 == 0xB3 then BIT
            else if d.op2 == 0xBB then BIT
            else if d.op2 == 0xBA && d.reg >= 4 then BIT
            else if d.op2 == 0xAF then Wrote({S, Z, A, P}, {})
            else if d.op2 == 0xB0 || d.op2 == 0xB1 then Wrote({}, {})
            else if d.op2 == 0xBC then SCAN(zfAfter)
            else if d.op2 == 0xBD then SCAN(zfAfter)
            else if d.op2 == 0xC0 || d.op2 == 0xC1 then Wrote({}, {})
            else NONE
  {
  }

  lemma BitsFacts1()
    ensures Agrees(BIT, RowOf(BT))
    ensures Agrees(BIT, RowOf(BTS))
    ensures Agrees(BIT, RowOf(BTR))
  {
    hide Agrees, SCAN;
    BitFacts();
  }

  lemma BitsFacts2()
    ensures Agrees(BIT, RowOf(BTC))
    ensures Agrees(Wrote({S, Z, A, P}, {}), RowOf(IMUL))
    ensures Agrees(Wrote({}, {}), RowOf(CMPXCHG))
  {
    hide Agrees, SCAN;
    ArithmeticFacts();
    BitFacts();
  }

  lemma BitsFacts3()
    ensures Agrees(SCAN(true), RowOf(BSF))
    ensures Agrees(SCAN(true), RowOf(BSR))
    ensures Agrees(Wrote({}, {}), RowOf(XADD))
  {
    hide Agrees, SCAN;
    ArithmeticFacts();
    BitFacts();
  }

  lemma BitsFacts4()
    ensures Agrees(NONE, RowOf(OTHER))
    ensures Agrees(SCAN(false), RowOf(BSF))
    ensures Agrees(SCAN(false), RowOf(BSR))
  {
    hide Agrees, SCAN;
    ArithmeticFacts();
    BitFacts();
  }

  lemma BitsAreManual(d: Insn, ecx: Word32, imm: Byte, zfAfter: bool)
    requires d.op == 0x0F && 0xA0 <= d.op2 && d.op2 !in {0xA4, 0xA5, 0xAC, 0xAD}
    ensures Right(TwoByte(d, ecx, imm, zfAfter), d, ecx, imm)
  {
    hide Decode, Right, OneByte, TwoByte, RowOf, Agrees;
    BitsDecodes(d);
    BitsEffects(d, ecx, imm, zfAfter);
    BitsFacts1();
    BitsFacts2();
    BitsFacts3();
    BitsFacts4();
    BitGroup(d.reg);
    PlainRow(TwoByte(d, ecx, imm, zfAfter), d, ecx, imm, Decode(d));
  }

  lemma BitGroup(k: nat)
    requires k < 8
    ensures if k < 4 then GROUP8[k] == OTHER else GROUP8[k] == [BT, BTS, BTR, BTC][k - 4]
  {
  }

  // ---- What follows ----

  /** Two encodings of one mnemonic, with the same count and size where it
      shifts and both run or not where it repeats, have the same effect on the
      flags. */
  lemma EncodingsAgree(d: Insn, d': Insn, ecx: Word32, ecx': Word32, imm: Byte, imm': Byte, zf: bool, zf': bool)
    requires Decode(d) == Decode(d') && !Departs(d, ecx, imm) && !Departs(d', ecx', imm')
    requires IsShift(Decode(d)) ==> CountOf(d, ecx, imm) == CountOf(d', ecx', imm') && SizeOf(d) == SizeOf(d')
    requires Decode(d).CMPS? || Decode(d).SCAS? ==> (d.rep && ecx == 0 <==> d'.rep && ecx' == 0)
    ensures var e, e' := FlagEffect(d, ecx, imm, zf), FlagEffect(d', ecx', imm', zf');
            e.wr == e'.wr && e.ud == e'.ud && e.rd == e'.rd
  {
    assert RowFor(d, ecx, imm) == RowFor(d', ecx', imm') by {
      hide Decode, CountOf, SizeOf, ShiftRow, RowOf;
    }
    hide FlagEffect, RowFor, Departs, Decode;
    TableIsManualIff(d, ecx, imm, zf);
    TableIsManualIff(d', ecx', imm', zf');
    var e, e' := FlagEffect(d, ecx, imm, zf), FlagEffect(d', ecx', imm', zf');
    forall x: Flag
      ensures (x in e.wr <==> x in e'.wr) && (x in e.ud <==> x in e'.ud) && (x in e.rd <==> x in e'.rd)
    {
      match x case C => case P => case A => case Z => case S => case O =>
    }
  }

  /** The logic operations, whose AF the program clears, are AND, OR, XOR and
      TEST in every encoding. */
  lemma LogicMnemonics(d: Insn)
    ensures IsLogic(d) <==> Decode(d).AND? || Decode(d).OR? || Decode(d).XOR? || Decode(d).TEST?
  {
    if d.op < 0x40 && d.op % 8 < 6 && d.op != 0x0F {
      assert Decode(d) == GROUP1[d.op / 8];
    }
  }

  lemma OneByteMarks(d: Insn, ecx: Word32, imm: Byte)
    requires d.op != 0x0F
    ensures var e := OneByte(d, ecx, imm);
            !e.destUndef && (e.branch <==> 0x70 <= d.op < 0x80 || d.op == 0xE0 || d.op == 0xE1)
  {
    hide Condition, ShiftCount;
  }

  lemma OneByteBranches(d: Insn)
    requires d.op != 0x0F
    ensures var m := Decode(d);
            && (m.JCC? || m.LOOPE? || m.LOOPNE? <==> 0x70 <= d.op < 0x80 || d.op == 0xE0 || d.op == 0xE1)
            && !m.SHLD? && !m.SHRD? && !m.BSF? && !m.BSR?
  {
  }

  lemma TwoByteMarks(d: Insn, ecx: Word32, imm: Byte, zfAfter: bool)
    requires d.op == 0x0F
    ensures var e := TwoByte(d, ecx, imm, zfAfter);
            && (e.branch <==> 0x80 <= d.op2 < 0x90)
            && (e.destUndef <==>
                  || (d.op2 in {0xA4, 0xA5, 0xAC, 0xAD} && CountOf(d, ecx, imm) > SizeOf(d))
                  || ((d.op2 == 0xBC || d.op2 == 0xBD) && zfAfter))
  {
    if d.op2 in {0xA4, 0xA5, 0xAC, 0xAD} {
      DoubleEffects(d, ecx, imm, zfAfter);
      DoubleMarks(d, CountOf(d, ecx, imm));
      hide TwoByte, DoubleShift, CountOf, SizeOf;
    } else {
      SingleMarks(d, ecx, imm, zfAfter);
      hide TwoByte, CountOf, SizeOf;
    }
  }

  lemma DoubleMarks(d: Insn, cnt: nat)
    requires d.op == 0x0F
    ensures var e := DoubleShift(d, cnt); !e.branch && (e.destUndef <==> cnt > SizeOf(d))
  {
  }

  lemma SingleMarks(d: Insn, ecx: Word32, imm: Byte, zfAfter: bool)
    requires d.op == 0x0F && d.op2 !in {0xA4, 0xA5, 0xAC, 0xAD}
    ensures var e := TwoByte(d, ecx, imm, zfAfter);
            && (e.branch <==> 0x80 <= d.op2 < 0x90)
            && (e.destUndef <==> (d.op2 == 0xBC || d.op2 == 0xBD) && zfAfter)
  {
    hide Condition, DoubleShift;
  }

  lemma TwoByteBranches(d: Insn)
    requires d.op == 0x0F
    ensures var m := Decode(d);
            && (m.JCC? || m.LOOPE? || m.LOOPNE? <==> 0x80 <= d.op2 < 0x90)
            && (m.SHLD? || m.SHRD? <==> d.op2 in {0xA4, 0xA5, 0xAC, 0xAD})
            && (m.BSF? || m.BSR? <==> d.op2 == 0xBC || d.op2 == 0xBD)
  {
    BitGroup(d.reg);
  }

  /** The other two marks of the table: a conditional branch, and a result that
      is not defined. */
  lemma OtherMarks(d: Insn, ecx: Word32, imm: Byte, zfAfter: bool)
    ensures var e, m := FlagEffect(d, ecx, imm, zfAfter), Decode(d);
            && (e.branch <==> m.JCC? || m.LOOPE? || m.LOOPNE?)
            && (e.destUndef <==>
                  || ((m.SHLD? || m.SHRD?) && CountOf(d, ecx, imm) > SizeOf(d))
                  || ((m.BSF? || m.BSR?) && zfAfter))
  {
    hide OneByte, TwoByte, Decode, CountOf, SizeOf;
    if d.op == 0x0F {
      TwoByteMarks(d, ecx, imm, zfAfter);
      TwoByteBranches(d);
    } else {
      OneByteMarks(d, ecx, imm);
      OneByteBranches(d);
    }
  }
}
