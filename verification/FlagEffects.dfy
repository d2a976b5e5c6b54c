/** Which arithmetic flags an instruction writes, leaves undefined and reads. */
module FlagEffects {
  import opened Platform

  datatype Flag = C | P | A | Z | S | O

  const ARITH: set<Flag> := {C, P, A, Z, S, O}

  /** A field of three bits. */
  type Field = x: nat | x < 8

  /** A decoded instruction: its opcode and second opcode byte, the fields of
      its mod-reg-rm byte, its operand size, and a repeat prefix. */
  datatype Insn = Insn(op: Byte, op2: Byte, mod: nat, reg: Field, op32: bool, rep: bool)

  datatype Effect = Effect(wr: set<Flag>, ud: set<Flag>, rd: set<Flag>, destUndef: bool, branch: bool)

  const NONE: Effect := Effect({}, {}, {}, false, false)

  function Condition(cc: nat): set<Flag> {
    match cc / 2 % 8
    case 0 => {O} case 1 => {C} case 2 => {Z} case 3 => {C, Z} case 4 => {S} case 5 => {P}
    case 6 => {S, O} case _ => {Z, S, O}
  }

  function Wrote(ud: set<Flag>, rd: set<Flag>): Effect {
    NONE.(wr := ARITH, ud := ud, rd := rd)
  }

  /** The eight arithmetic operations, by number. */
  function Alu(k: nat): Effect {
    Wrote(if k == 1 || k == 4 || k == 6 then {A} else {}, if k == 2 || k == 3 then {C} else {})
  }

  predicate Shift(op: Byte) {
    op == 0xC0 || op == 0xC1 || 0xD0 <= op <= 0xD3
  }

  /** How far a shift or rotate goes: by one, by CL, or by an immediate. */
  function ShiftCount(op: Byte, ecx: Word32, imm: Byte): nat {
    (if op == 0xD0 || op == 0xD1 then 1 else if op == 0xD2 || op == 0xD3 then ecx % 0x100 else imm) % 32
  }

  function ShiftEffect(d: Insn, cnt: nat): Effect {
    var w := if d.op % 2 == 0 then 8 else if d.op32 then 32 else 16;
    var over := if cnt != 1 then {O} else {};
    if cnt == 0 then NONE
    else if d.reg <= 3 then NONE.(wr := {C, O}, ud := over, rd := if d.reg >= 2 then {C} else {})
    else Wrote({A} + over + (if cnt >= w then {C} else {}), {})
  }

  function Group3(reg: nat): Effect {
    match reg
    case 0 => Wrote({A}, {})
    case 1 => Wrote({A}, {})
    case 3 => Wrote({}, {})
    case 4 => Wrote({S, Z, A, P}, {})
    case 5 => Wrote({S, Z, A, P}, {})
    case 6 => Wrote(ARITH, {})
    case 7 => Wrote(ARITH, {})
    case _ => NONE
  }

  function OneByte(d: Insn, ecx: Word32, imm: Byte): Effect {
    var op := d.op;
    if op < 0x40 && op % 8 < 6 then Alu(op / 8 % 8)
    else if op == 0x27 || op == 0x2F then Wrote({O}, {C, A})
    else if op == 0x37 || op == 0x3F then Wrote({O, S, Z, P}, {A})
    else if 0x40 <= op <= 0x4F then NONE.(wr := {O, S, Z, A, P})
    else if op == 0x69 || op == 0x6B then Wrote({S, Z, A, P}, {})
    else if 0x70 <= op <= 0x7F then NONE.(rd := Condition(op % 0x10), branch := true)
    else if 0x80 <= op <= 0x83 then Alu(d.reg)
    else if op == 0x84 || op == 0x85 || op == 0xA8 || op == 0xA9 then Wrote({A}, {})
    else if op == 0x9D then Wrote({}, {})
    else if op == 0x9E then NONE.(wr := {S, Z, A, P, C})
    else if op == 0x9F then NONE.(rd := {S, Z, A, P, C})
    else if op == 0xA6 || op == 0xA7 || op == 0xAE || op == 0xAF then
      if d.rep && ecx == 0 then NONE else Wrote({}, {})
    else if Shift(op) then ShiftEffect(d, ShiftCount(op, ecx, imm))
    else if op == 0xD4 || op == 0xD5 then Wrote({O, A, C}, {})
    else if op == 0xE0 || op == 0xE1 then NONE.(rd := {Z}, branch := true)
    else if op == 0xF5 then NONE.(wr := {C}, rd := {C})
    else if op == 0xF8 || op == 0xF9 then NONE.(wr := {C})
    else if op == 0xF6 || op == 0xF7 then Group3(d.reg)
    else if (op == 0xFE || op == 0xFF) && d.reg <= 1 then NONE.(wr := {O, S, Z, A, P})
    else NONE
  }

  /** SHLD and SHRD. */
  function DoubleShift(d: Insn, cnt: nat): Effect {
    var width := if d.op32 then 32 else 16;
    if cnt == 0 then NONE
    else if cnt > width then Wrote(ARITH, {}).(destUndef := true)
    else Wrote({A} + (if cnt != 1 then {O} else {}), {})
  }

  function TwoByte(d: Insn, ecx: Word32, imm: Byte, zfAfter: bool): Effect {
    var o := d.op2;
    if 0x80 <= o <= 0x8F then NONE.(rd := Condition(o % 0x10), branch := true)
    else if 0x90 <= o <= 0x9F then NONE.(rd := Condition(o % 0x10))
    else if o == 0xA3 || o == 0xAB || o == 0xB3 || o == 0xBB || (o == 0xBA && d.reg >= 4) then
      NONE.(wr := {C, O, S, A, P}, ud := {O, S, A, P})
    else if o == 0xA4 || o == 0xAC then DoubleShift(d, imm % 32)
    else if o == 0xA5 || o == 0xAD then DoubleShift(d, ecx % 0x100 % 32)
    else if o == 0xAF then Wrote({S, Z, A, P}, {})
    else if o == 0xB0 || o == 0xB1 || o == 0xC0 || o == 0xC1 then Wrote({}, {})
    else if o == 0xBC || o == 0xBD then Wrote({C, O, S, A, P}, {}).(destUndef := zfAfter)
    else if o == 0x02 || o == 0x03 || (o == 0 && (d.reg == 4 || d.reg == 5)) then NONE.(wr := {Z})
    else NONE
  }

  /** flag_effect. */
  function FlagEffect(d: Insn, ecx: Word32, imm: Byte, zfAfter: bool): Effect {
    if d.op != 0x0F then OneByte(d, ecx, imm) else TwoByte(d, ecx, imm, zfAfter)
  }

  /** is_logic_op: AND, OR, XOR and TEST. */
  predicate IsLogic(d: Insn) {
    var op := d.op;
    if op < 0x40 && op % 8 < 6 then op / 8 % 8 in {1, 4, 6}
    else if 0x80 <= op <= 0x83 then d.reg in {1, 4, 6}
    else if op == 0x84 || op == 0x85 || op == 0xA8 || op == 0xA9 then true
    else if op == 0xF6 || op == 0xF7 then d.reg == 0 || d.reg == 1
    else false
  }

  /** Whatever the instruction and its operands, a flag left undefined is one
      it writes. */
  lemma UndefinedIsWritten(d: Insn, ecx: Word32, imm: Byte, zfAfter: bool)
    ensures FlagEffect(d, ecx, imm, zfAfter).ud <= FlagEffect(d, ecx, imm, zfAfter).wr <= ARITH
  {
    forall f: Flag
      ensures f in ARITH
    {
      match f case C => case P => case A => case Z => case S => case O =>
    }
  }

  /** The logic operations write every flag and leave exactly AF undefined, so
      clearing AF leaves nothing to adopt. */
  lemma LogicLeavesOnlyAux(d: Insn, ecx: Word32, imm: Byte, zfAfter: bool)
    requires IsLogic(d)
    ensures FlagEffect(d, ecx, imm, zfAfter) == Wrote({A}, {})
  {
    if d.op < 0x40 {
      assert d.op != 0x0F;
    }
  }
}
