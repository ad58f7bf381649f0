/** Instruction words: field extractors, the encoder behind the expansion of compressed instructions, and both decoders.
    Words are 32 bits wide. Extractors whose range includes bit 31 sign-extend, because the word is a signed integer. */
module Instr {

  datatype Arch = RV32 | RV64

  datatype Width = Byte | Short | Word | Double
  datatype Alu = Add | Sub | Slt | Sltu | Xor | Or | And | AddWord | SubWord
  datatype ShiftKind = LeftLogical | RightLogical | RightArithmetic
  datatype Cond = Eq | Ne | Lt | Ge | Ltu | Geu

  /** The operations that the decoder names. A flag "word" marks the 32-bit shifts of RV64. */
  datatype Mapping =
    | UNDEF | LUI | AUIPC | JAL | JALR | EBREAK
    | BranchOp(cond: Cond)
    | LoadOp(width: Width, unsigned: bool, float: bool)
    | StoreOp(width: Width, float: bool)
    | ImmOp(alu: Alu)
    | ShiftOp(shift: ShiftKind, word: bool)
    | RegOp(alu: Alu)
    | RegShiftOp(shift: ShiftKind, word: bool)
    /** Whatever the groups outside this model decode to: multiply, fence, system, atomics, floating-point arithmetic. */
    | OTHER

  // ---------------------------------------------------------------- extractors

  function Opcode(w: bv32): bv32 { w & 0x7f }
  function Funct3(w: bv32): bv32 { (w & 0x7000) >> 12 }
  function Funct6(w: bv32): bv32 { (w & 0xfc00_0000) >> 26 }
  function Funct7(w: bv32): bv32 { (w & 0xfe00_0000) >> 25 }
  function Funct12(w: bv32): bv32 { (w & 0xfff0_0000) >> 20 }
  function Rd(w: bv32): bv32 { (w & 0xf80) >> 7 }
  function Rs1(w: bv32): bv32 { (w & 0xf_8000) >> 15 }
  function Rs2(w: bv32): bv32 { (w & 0x1f0_0000) >> 20 }
  function Shamt(w: bv32): bv32 { (w & 0x3f0_0000) >> 20 }

  /** mask, or nothing, depending on bit 31: what an arithmetic shift right fills in. */
  function Fill31(w: bv32, mask: bv32): bv32 { if w & 0x8000_0000 != 0 then mask else 0 }

  function ImmI(w: bv32): bv32 { ((w & 0xfff0_0000) >> 20) | Fill31(w, 0xffff_f000) }
  function ImmS(w: bv32): bv32 { ((w & 0xfe00_0000) >> 20) | Fill31(w, 0xffff_f000) | ((w & 0xf80) >> 7) }
  function ImmB(w: bv32): bv32 {
    Fill31(w, 0xffff_f000) | ((w & 0x80) << 4) | ((w & 0x7e00_0000) >> 20) | ((w & 0xf00) >> 7)
  }
  function ImmU(w: bv32): bv32 { w & 0xffff_f000 }
  function ImmJ(w: bv32): bv32 {
    Fill31(w, 0xfff0_0000) | (w & 0xf_f000) | ((w & 0x10_0000) >> 9) | ((w & 0x7fe0_0000) >> 20)
  }

  // ---------------------------------------------------------------- extractors of compressed instructions

  function Quadrant(w: bv32): bv32 { w & 3 }
  function CFormat(w: bv32): bv32 { w & 0xffff }
  function COpcode(w: bv32): bv32 { (w & 0xe000) >> 13 }
  function CB12(w: bv32): bv32 { (w & 0x1000) >> 12 }
  function CRdSmall(w: bv32): bv32 { ((w & 0x380) >> 7) | 8 }
  function CRs2Small(w: bv32): bv32 { ((w & 0x1c) >> 2) | 8 }
  function CRs2(w: bv32): bv32 { (w & 0x7c) >> 2 }
  function CF2High(w: bv32): bv32 { (w & 0xc00) >> 10 }
  function CF2Low(w: bv32): bv32 { (w & 0x60) >> 5 }

  /** EXTRACT_SIGN_BIT of bit 12: every bit from the new position up. */
  function Sign12(w: bv32, mask: bv32): bv32 { if w & 0x1000 != 0 then mask else 0 }

  function CImm(w: bv32): bv32 { ((w & 0x7c) >> 2) | Sign12(w, 0xffff_ffe0) }
  function CUimm(w: bv32): bv32 { ((w & 0x7c) >> 2) | (((w & 0x1000) >> 12) << 5) }

  function CAddi4spnImm(w: bv32): bv32 {
    (((w & 0x1800) >> 11) << 4) | (((w & 0x780) >> 7) << 6) | (((w & 0x40) >> 6) << 2) | (((w & 0x20) >> 5) << 3)
  }
  function CLwImm(w: bv32): bv32 { (((w & 0x1c00) >> 10) << 3) | (((w & 0x40) >> 6) << 2) | (((w & 0x20) >> 5) << 6) }
  function CLdImm(w: bv32): bv32 { (((w & 0x1c00) >> 10) << 3) | (((w & 0x60) >> 5) << 6) }
  function CJalImm(w: bv32): bv32 {
    Sign12(w, 0xffff_f800) | (((w & 0x800) >> 11) << 4) | (((w & 0x600) >> 9) << 8) | (((w & 0x100) >> 8) << 10)
    | (((w & 0x80) >> 7) << 6) | (((w & 0x40) >> 6) << 7) | (((w & 0x38) >> 3) << 1) | (((w & 4) >> 2) << 5)
  }
  function CAddi16spImm(w: bv32): bv32 {
    Sign12(w, 0xffff_fe00) | (((w & 0x40) >> 6) << 4) | (((w & 0x20) >> 5) << 6) | (((w & 0x18) >> 3) << 7)
    | (((w & 4) >> 2) << 5)
  }
  function CLuiImm(w: bv32): bv32 { Sign12(w, 0xfffe_0000) | (((w & 0x7c) >> 2) << 12) }
  function CBranchImm(w: bv32): bv32 {
    Sign12(w, 0xffff_ff00) | (((w & 0xc00) >> 10) << 3) | (((w & 0x60) >> 5) << 6) | (((w & 0x18) >> 3) << 1)
    | (((w & 4) >> 2) << 5)
  }
  function CLwspImm(w: bv32): bv32 {
    (((w & 0x1000) >> 12) << 5) | (((w & 0x70) >> 4) << 2) | (((w & 0xc) >> 2) << 6)
  }
  function CSwspImm(w: bv32): bv32 { (((w & 0x1e00) >> 9) << 2) | (((w & 0x180) >> 7) << 6) }
  function CLdspImm(w: bv32): bv32 {
    (((w & 0x1000) >> 12) << 5) | (((w & 0x60) >> 5) << 3) | (((w & 0x1c) >> 2) << 6)
  }
  function CSdspImm(w: bv32): bv32 { (((w & 0x1c00) >> 10) << 3) | (((w & 0x380) >> 7) << 6) }

  /** Everything the extractors read out of a compressed instruction. */
  datatype Parts = Parts(
    quadrant: bv32, format: bv32, f3: bv32, b12: bv32, high: bv32, low: bv32,
    rd: bv32, rs2: bv32, rdSmall: bv32, rs2Small: bv32,
    imm: bv32, uimm: bv32, addi4spn: bv32, lw: bv32, ld: bv32, jal: bv32, addi16sp: bv32, lui: bv32, branch: bv32,
    lwsp: bv32, swsp: bv32, ldsp: bv32, sdsp: bv32)

  function PartsOf(w: bv32): Parts {
    Parts(
      Quadrant(w), CFormat(w), COpcode(w), CB12(w), CF2High(w), CF2Low(w),
      Rd(w), CRs2(w), CRdSmall(w), CRs2Small(w),
      CImm(w), CUimm(w), CAddi4spnImm(w), CLwImm(w), CLdImm(w), CJalImm(w), CAddi16spImm(w), CLuiImm(w), CBranchImm(w),
      CLwspImm(w), CSwspImm(w), CLdspImm(w), CSdspImm(w))
  }

  // ---------------------------------------------------------------- encoders, one per format

  /** low holds the opcode and the function fields. */
  function EncodeR(low: bv32, rd: bv32, rs1: bv32, rs2: bv32): bv32 {
    ((rd & 0x1f) << 7) | ((rs1 & 0x1f) << 15) | ((rs2 & 0x1f) << 20) | low
  }
  function EncodeI(low: bv32, rd: bv32, rs1: bv32, imm: bv32): bv32 {
    ((imm & 0xfff) << 20) | ((rd & 0x1f) << 7) | ((rs1 & 0x1f) << 15) | low
  }
  function EncodeShift(low: bv32, rd: bv32, rs1: bv32, shamt: bv32): bv32 {
    ((rd & 0x1f) << 7) | ((rs1 & 0x1f) << 15) | ((shamt & 63) << 20) | low
  }
  function EncodeS(low: bv32, rs1: bv32, rs2: bv32, imm: bv32): bv32 {
    ((imm & 0x1f) << 7) | ((imm & 0xfe0) << 20) | ((rs1 & 0x1f) << 15) | ((rs2 & 0x1f) << 20) | low
  }
  function EncodeB(low: bv32, rs1: bv32, rs2: bv32, imm: bv32): bv32 {
    ((imm & 0x1e) << 7) | ((imm & 0x800) >> 4) | ((imm & 0x7e0) << 20) | ((imm & 0x1000) << 19)
    | ((rs1 & 0x1f) << 15) | ((rs2 & 0x1f) << 20) | low
  }
  function EncodeU(low: bv32, rd: bv32, imm: bv32): bv32 { (imm & 0xffff_f000) | ((rd & 0x1f) << 7) | low }
  function EncodeJ(low: bv32, rd: bv32, imm: bv32): bv32 {
    low | ((rd & 0x1f) << 7) | (imm & 0xf_f000) | ((imm & 0x800) << 9) | ((imm & 0x7fe) << 20) | ((imm & 0x10_0000) << 11)
  }

  // ---------------------------------------------------------------- factory calls

  /** A register argument of a factory call: a constant or the result of an extractor. */
  datatype Reg = X0 | X1 | X2 | XRd | XRs2 | XRdSmall | XRs2Small

  /** An immediate argument: the result of an extractor. */
  datatype Imm =
    | NoImm | AImm | AUimm | AAddi4spn | ALw | ALd | AJal | AAddi16sp | ALui | ABranch | ALwsp | ASwsp | ALdsp | ASdsp

  function RegOf(r: Reg, p: Parts): bv32 {
    match r
    case X0 => 0
    case X1 => 1
    case X2 => 2
    case XRd => p.rd
    case XRs2 => p.rs2
    case XRdSmall => p.rdSmall
    case XRs2Small => p.rs2Small
  }

  function ImmOf(i: Imm, p: Parts): bv32 {
    match i
    case NoImm => 0
    case AImm => p.imm
    case AUimm => p.uimm
    case AAddi4spn => p.addi4spn
    case ALw => p.lw
    case ALd => p.ld
    case AJal => p.jal
    case AAddi16sp => p.addi16sp
    case ALui => p.lui
    case ABranch => p.branch
    case ALwsp => p.lwsp
    case ASwsp => p.swsp
    case ALdsp => p.ldsp
    case ASdsp => p.sdsp
  }

  /** The immediates of the formats with 12 bits. */
  type Imm12 = i: Imm | !i.ALui? && !i.AUimm? && !i.AJal? && !i.ABranch? witness NoImm

  /** A call of the instruction factory, with the operation that execution is then told to perform. MakeAddiw is the call of
      the factory's ADDI for the operation ADDIW. */
  datatype Expansion =
    | Undefined
    | MakeEbreak
    | MakeR(alu: Alu, rd: Reg, rs1: Reg, rs2: Reg)
    | MakeAddi(rd: Reg, rs1: Reg, imm: Imm12)
    | MakeAddiw(rd: Reg, rs1: Reg, imm: Imm12)
    | MakeAndi(rd: Reg, rs1: Reg, imm: Imm12)
    | MakeJalr(rd: Reg, rs1: Reg)
    | MakeLoad(double: bool, float: bool, rd: Reg, rs1: Reg, imm: Imm12)
    | MakeStore(double: bool, float: bool, rs1: Reg, rs2: Reg, imm: Imm12)
    | MakeShift(shift: ShiftKind, reg: Reg)
    | MakeBranch(onEqual: bool, rs1: Reg)
    | MakeLui(rd: Reg)
    | MakeJal(rd: Reg)

  function WidthOf(double: bool): Width { if double then Double else Word }

  function MappingOf(e: Expansion): Mapping {
    match e
    case Undefined => UNDEF
    case MakeEbreak => EBREAK
    case MakeR(alu, _, _, _) => RegOp(alu)
    case MakeAddi(_, _, _) => ImmOp(Add)
    case MakeAddiw(_, _, _) => ImmOp(AddWord)
    case MakeAndi(_, _, _) => ImmOp(And)
    case MakeJalr(_, _) => JALR
    case MakeLoad(double, float, _, _, _) => LoadOp(WidthOf(double), false, float)
    case MakeStore(double, float, _, _, _) => StoreOp(WidthOf(double), float)
    case MakeShift(shift, _) => ShiftOp(shift, false)
    case MakeBranch(onEqual, _) => BranchOp(if onEqual then Eq else Ne)
    case MakeLui(_) => LUI
    case MakeJal(_) => JAL
  }

  /** The opcode and function fields that the factory sets. */
  function LowOfR(alu: Alu): bv32 {
    match alu
    case Add => 0x33
    case Sub => 0x4000_0033
    case Slt => 0x2033
    case Sltu => 0x3033
    case Xor => 0x4033
    case Or => 0x6033
    case And => 0x7033
    case AddWord => 0x3b
    case SubWord => 0x4000_003b
  }
  function LowOfLoad(double: bool, float: bool): bv32 {
    if float then if double then 0x3007 else 0x2007 else if double then 0x3003 else 0x2003
  }
  function LowOfStore(double: bool, float: bool): bv32 {
    if float then if double then 0x3027 else 0x2027 else if double then 0x3023 else 0x2023
  }
  function LowOfShift(shift: ShiftKind): bv32 {
    match shift
    case LeftLogical => 0x1013
    case RightLogical => 0x5013
    case RightArithmetic => 0x4000_5013
  }
  function LowOfBranch(onEqual: bool): bv32 { if onEqual then 0x63 else 0x1063 }

  /** The word that replaces instruction w. */
  function Make(e: Expansion, w: bv32, p: Parts): bv32 {
    match e
    case Undefined => w
    case MakeEbreak => 0x10_0073
    case MakeR(alu, rd, rs1, rs2) => EncodeR(LowOfR(alu), RegOf(rd, p), RegOf(rs1, p), RegOf(rs2, p))
    case MakeAddi(rd, rs1, imm) => EncodeI(0x13, RegOf(rd, p), RegOf(rs1, p), ImmOf(imm, p))
    case MakeAddiw(rd, rs1, imm) => EncodeI(0x13, RegOf(rd, p), RegOf(rs1, p), ImmOf(imm, p))
    case MakeAndi(rd, rs1, imm) => EncodeI(0x7013, RegOf(rd, p), RegOf(rs1, p), ImmOf(imm, p))
    case MakeJalr(rd, rs1) => EncodeI(0x67, RegOf(rd, p), RegOf(rs1, p), 0)
    case MakeLoad(double, float, rd, rs1, imm) =>
      EncodeI(LowOfLoad(double, float), RegOf(rd, p), RegOf(rs1, p), ImmOf(imm, p))
    case MakeStore(double, float, rs1, rs2, imm) =>
      EncodeS(LowOfStore(double, float), RegOf(rs1, p), RegOf(rs2, p), ImmOf(imm, p))
    case MakeShift(shift, reg) => EncodeShift(LowOfShift(shift), RegOf(reg, p), RegOf(reg, p), p.uimm)
    case MakeBranch(onEqual, rs1) => EncodeB(LowOfBranch(onEqual), RegOf(rs1, p), 0, p.branch)
    case MakeLui(rd) => EncodeU(0x37, RegOf(rd, p), p.lui)
    case MakeJal(rd) => EncodeJ(0x6f, RegOf(rd, p), p.jal)
  }

  // ---------------------------------------------------------------- the normal decoder

  function Match(w: bv32, mask: bv32, encoding: bv32, m: Mapping): Mapping {
    if w & mask != encoding then UNDEF else m
  }

  const MASK_I: bv32 := 0x707f
  const MASK_R: bv32 := 0xfe00_707f
  const MASK_SHIFT64: bv32 := 0xfc00_707f

  function DecodeBranch(w: bv32): Mapping {
    var f3 := Funct3(w);
    if f3 == 0 then Match(w, MASK_I, 0x63, BranchOp(Eq))
    else if f3 == 1 then Match(w, MASK_I, 0x1063, BranchOp(Ne))
    else if f3 == 4 then Match(w, MASK_I, 0x4063, BranchOp(Lt))
    else if f3 == 5 then Match(w, MASK_I, 0x5063, BranchOp(Ge))
    else if f3 == 6 then Match(w, MASK_I, 0x6063, BranchOp(Ltu))
    else if f3 == 7 then Match(w, MASK_I, 0x7063, BranchOp(Geu))
    else UNDEF
  }

  function DecodeLoad(w: bv32): Mapping {
    var f3 := Funct3(w);
    if f3 == 0 then Match(w, MASK_I, 0x3, LoadOp(Byte, false, false))
    else if f3 == 1 then Match(w, MASK_I, 0x1003, LoadOp(Short, false, false))
    else if f3 == 2 then Match(w, MASK_I, 0x2003, LoadOp(Word, false, false))
    else if f3 == 4 then Match(w, MASK_I, 0x4003, LoadOp(Byte, true, false))
    else if f3 == 5 then Match(w, MASK_I, 0x5003, LoadOp(Short, true, false))
    else if f3 == 6 then Match(w, MASK_I, 0x6003, LoadOp(Word, true, false))
    else if f3 == 3 then Match(w, MASK_I, 0x3003, LoadOp(Double, false, false))
    else UNDEF
  }

  function DecodeStore(w: bv32): Mapping {
    var f3 := Funct3(w);
    if f3 == 0 then Match(w, MASK_I, 0x23, StoreOp(Byte, false))
    else if f3 == 1 then Match(w, MASK_I, 0x1023, StoreOp(Short, false))
    else if f3 == 2 then Match(w, MASK_I, 0x2023, StoreOp(Word, false))
    else if f3 == 3 then Match(w, MASK_I, 0x3023, StoreOp(Double, false))
    else UNDEF
  }

  function DecodeImmediate(w: bv32, arch: Arch): Mapping {
    var f3 := Funct3(w);
    var shiftMask := if arch == RV32 then MASK_R else MASK_SHIFT64;
    if f3 == 0 then Match(w, MASK_I, 0x13, ImmOp(Add))
    else if f3 == 2 then Match(w, MASK_I, 0x2013, ImmOp(Slt))
    else if f3 == 3 then Match(w, MASK_I, 0x3013, ImmOp(Sltu))
    else if f3 == 4 then Match(w, MASK_I, 0x4013, ImmOp(Xor))
    else if f3 == 6 then Match(w, MASK_I, 0x6013, ImmOp(Or))
    else if f3 == 7 then Match(w, MASK_I, 0x7013, ImmOp(And))
    else if f3 == 1 then Match(w, shiftMask, 0x1013, ShiftOp(LeftLogical, false))
    else if Funct6(w) == 0 then Match(w, shiftMask, 0x5013, ShiftOp(RightLogical, false))
    else if Funct6(w) == 0x10 then Match(w, shiftMask, 0x4000_5013, ShiftOp(RightArithmetic, false))
    else UNDEF
  }

  function DecodeImmediateWord(w: bv32): Mapping {
    var f3 := Funct3(w);
    if f3 == 0 then Match(w, MASK_I, 0x1b, ImmOp(AddWord))
    else if f3 == 1 then Match(w, MASK_R, 0x101b, ShiftOp(LeftLogical, true))
    else if f3 == 5 && Funct7(w) == 0 then Match(w, MASK_R, 0x501b, ShiftOp(RightLogical, true))
    else if f3 == 5 && Funct7(w) == 0x20 then Match(w, MASK_R, 0x4000_501b, ShiftOp(RightArithmetic, true))
    else UNDEF
  }

  function DecodeRegister(w: bv32): Mapping {
    var f3, f7 := Funct3(w), Funct7(w);
    if f7 == 0 then
      if f3 == 0 then Match(w, MASK_R, 0x33, RegOp(Add))
      else if f3 == 1 then Match(w, MASK_R, 0x1033, RegShiftOp(LeftLogical, false))
      else if f3 == 2 then Match(w, MASK_R, 0x2033, RegOp(Slt))
      else if f3 == 3 then Match(w, MASK_R, 0x3033, RegOp(Sltu))
      else if f3 == 4 then Match(w, MASK_R, 0x4033, RegOp(Xor))
      else if f3 == 5 then Match(w, MASK_R, 0x5033, RegShiftOp(RightLogical, false))
      else if f3 == 6 then Match(w, MASK_R, 0x6033, RegOp(Or))
      else Match(w, MASK_R, 0x7033, RegOp(And))
    else if f7 == 0x20 then
      if f3 == 0 then Match(w, MASK_R, 0x4000_0033, RegOp(Sub))
      else if f3 == 5 then Match(w, MASK_R, 0x4000_5033, RegShiftOp(RightArithmetic, false))
      else UNDEF
    else if f7 == 1 then OTHER
    else UNDEF
  }

  function DecodeRegisterWord(w: bv32): Mapping {
    var f3, f7 := Funct3(w), Funct7(w);
    if f7 == 0 then
      if f3 == 0 then Match(w, MASK_R, 0x3b, RegOp(AddWord))
      else if f3 == 1 then Match(w, MASK_R, 0x103b, RegShiftOp(LeftLogical, true))
      else if f3 == 5 then Match(w, MASK_R, 0x503b, RegShiftOp(RightLogical, true))
      else UNDEF
    else if f7 == 0x20 then
      if f3 == 0 then Match(w, MASK_R, 0x4000_003b, RegOp(SubWord))
      else if f3 == 5 then Match(w, MASK_R, 0x4000_503b, RegShiftOp(RightArithmetic, true))
      else UNDEF
    else if f7 == 1 then OTHER
    else UNDEF
  }

  function DecodeNormal(w: bv32, arch: Arch): Mapping {
    var op, f3 := Opcode(w), Funct3(w);
    if op == 0x37 then LUI
    else if op == 0x17 then AUIPC
    else if op == 0x6f then JAL
    else if op == 0x67 then Match(w, MASK_I, 0x67, JALR)
    else if op == 0x63 then DecodeBranch(w)
    else if op == 0x03 then DecodeLoad(w)
    else if op == 0x23 then DecodeStore(w)
    else if op == 0x13 then DecodeImmediate(w, arch)
    else if op == 0x1b then DecodeImmediateWord(w)
    else if op == 0x33 then DecodeRegister(w)
    else if op == 0x3b then DecodeRegisterWord(w)
    else if op == 0x73 && f3 == 0 && Funct12(w) == 1 then Match(w, 0xffff_ffff, 0x10_0073, EBREAK)
    else if op == 0x07 && f3 == 2 then Match(w, MASK_I, 0x2007, LoadOp(Word, false, true))
    else if op == 0x07 && f3 == 3 then Match(w, MASK_I, 0x3007, LoadOp(Double, false, true))
    else if op == 0x27 && f3 == 2 then Match(w, MASK_I, 0x2027, StoreOp(Word, true))
    else if op == 0x27 && f3 == 3 then Match(w, MASK_I, 0x3027, StoreOp(Double, true))
    else if op == 0x07 || op == 0x27 then UNDEF
    else OTHER
  }

  // ---------------------------------------------------------------- the compressed decoder

  /** The compressed operations. C_LOAD stands for C_LW, C_LD, C_FLW, C_FLD and, with the stack pointer as base, their SP
      forms; C_STORE likewise; C_ALU for C_SUB to C_ADDW; C_BRANCH for C_BEQZ and C_BNEZ. */
  datatype COp =
    | C_Illegal | C_Reserved
    | C_LOAD(double: bool, float: bool, sp: bool)
    | C_STORE(double: bool, float: bool, sp: bool)
    | C_ALU(alu: Alu)
    | C_SHIFT(shift: ShiftKind)
    | C_BRANCH(onZero: bool)
    | C_NOP | C_ADDI4SPN | C_ADDI | C_ADDIW | C_LI | C_ADDI16SP | C_LUI | C_ANDI
    | C_J | C_JAL | C_JR | C_JALR | C_MV | C_ADD | C_EBREAK
    /** Quadrant 3: the decoder throws. */
    | C_NotCompressed

  function DecodeQuadrant0(p: Parts, arch: Arch): COp {
    var f := p.f3;
    if f == 0 then if p.format == 0 then C_Illegal else C_ADDI4SPN
    else if f == 1 then C_LOAD(true, true, false)
    else if f == 2 then C_LOAD(false, false, false)
    else if f == 3 then if arch == RV32 then C_LOAD(false, true, false) else C_LOAD(true, false, false)
    else if f == 4 then C_Reserved
    else if f == 5 then C_STORE(true, true, false)
    else if f == 6 then C_STORE(false, false, false)
    else if arch == RV32 then C_STORE(false, true, false) else C_STORE(true, false, false)
  }

  function DecodeAlu(p: Parts): COp {
    if p.high == 0 then C_SHIFT(RightLogical)
    else if p.high == 1 then C_SHIFT(RightArithmetic)
    else if p.high == 2 then C_ANDI
    else if p.b12 != 0 then
      if p.low == 0 then C_ALU(SubWord) else if p.low == 1 then C_ALU(AddWord) else C_Reserved
    else if p.low == 0 then C_ALU(Sub)
    else if p.low == 1 then C_ALU(Xor)
    else if p.low == 2 then C_ALU(Or)
    else C_ALU(And)
  }

  function DecodeQuadrant1(p: Parts, arch: Arch): COp {
    var f := p.f3;
    if f == 0 then if p.format == 1 then C_NOP else C_ADDI
    else if f == 1 then if arch == RV32 then C_JAL else C_ADDIW
    else if f == 2 then C_LI
    else if f == 3 then if p.rd == 2 then C_ADDI16SP else C_LUI
    else if f == 4 then DecodeAlu(p)
    else if f == 5 then C_J
    else C_BRANCH(f == 6)
  }

  function DecodeQuadrant2(p: Parts, arch: Arch): COp {
    var f := p.f3;
    if f == 0 then C_SHIFT(LeftLogical)
    else if f == 1 then C_LOAD(true, true, true)
    else if f == 2 then C_LOAD(false, false, true)
    else if f == 3 then if arch == RV32 then C_LOAD(false, true, true) else C_LOAD(true, false, true)
    else if f == 4 then
      if p.b12 != 0 then
        if p.rd != 0 then if p.rs2 != 0 then C_ADD else C_JALR
        else C_EBREAK
      else if p.rs2 != 0 then C_MV else C_JR
    else if f == 5 then C_STORE(true, true, true)
    else if f == 6 then C_STORE(false, false, true)
    else if arch == RV32 then C_STORE(false, true, true) else C_STORE(true, false, true)
  }

  function DecodeCompressed(p: Parts, arch: Arch): COp {
    if p.quadrant == 0 then DecodeQuadrant0(p, arch)
    else if p.quadrant == 1 then DecodeQuadrant1(p, arch)
    else if p.quadrant == 2 then DecodeQuadrant2(p, arch)
    else C_NotCompressed
  }

  // ---------------------------------------------------------------- expansion

  function Expand(p: Parts, op: COp, arch: Arch): Expansion {
    match op
    case C_LOAD(double, float, sp) =>
      if !sp then MakeLoad(double, float, XRs2Small, XRdSmall, if double then ALd else ALw)
      else if !float && p.rd == 0 then Undefined
      else MakeLoad(double, float, XRd, X2, if double then ALdsp else ALwsp)
    case C_STORE(double, float, sp) =>
      if sp then MakeStore(double, float, X2, XRs2, if double then ASdsp else ASwsp)
      else MakeStore(double, float, XRdSmall, XRs2Small, if double then ALd else ALw)
    case C_ALU(alu) => MakeR(alu, XRdSmall, XRdSmall, XRs2Small)
    case C_NOP => MakeR(Add, X0, X0, X0)
    case C_ADD => MakeR(Add, XRd, XRd, XRs2)
    case C_MV => MakeR(Add, XRd, X0, XRs2)
    case C_SHIFT(shift) =>
      if arch == RV32 && p.uimm > 31 then Undefined else MakeShift(shift, if shift == LeftLogical then XRd else XRdSmall)
    case C_ADDI4SPN => if p.addi4spn == 0 then Undefined else MakeAddi(XRs2Small, X2, AAddi4spn)
    case C_ADDI => MakeAddi(XRd, XRd, AImm)
    case C_ADDIW => if p.rd == 0 then Undefined else MakeAddiw(XRd, XRd, AImm)
    case C_LI => MakeAddi(XRd, X0, AImm)
    case C_ADDI16SP => if p.addi16sp == 0 then Undefined else MakeAddi(X2, X2, AAddi16sp)
    case C_ANDI => MakeAndi(XRdSmall, XRdSmall, AImm)
    case C_LUI => if p.lui == 0 then Undefined else MakeLui(XRd)
    case C_J => MakeJal(X0)
    case C_JAL => MakeJal(X1)
    case C_JR => if p.rd == 0 then Undefined else MakeJalr(X0, XRd)
    case C_JALR => MakeJalr(X1, XRd)
    case C_BRANCH(onZero) => MakeBranch(onZero, XRdSmall)
    case C_EBREAK => MakeEbreak
    case _ => Undefined
  }

  /** The word that replaces the instruction, and the operation to execute. */
  datatype Expanded = Expanded(word: bv32, mapping: Mapping)

  function DecodeAndExpand(w: bv32, arch: Arch): Expanded {
    var p := PartsOf(w);
    var e := Expand(p, DecodeCompressed(p, arch), arch);
    Expanded(Make(e, w, p), MappingOf(e))
  }
}
