/** The normal decoder, applied to the word that an expansion makes, names the operation that execution was told. */
module RvcDecode {
  import opened Instr
  import opened RvcFields
  import opened Rvc

  // ---------------------------------------------------------------- the decoder on the fixed fields of a format

  lemma {:induction false} LowBits(w: bv32, low: bv32)
    requires w & 0x707f == low
    ensures Opcode(w) == low & 0x7f && Funct3(w) == (low & 0x7000) >> 12
  {
  }

  lemma {:induction false} HighBits(w: bv32, low: bv32)
    requires w & 0xfe00_707f == low
    ensures w & 0x707f == low & 0x707f && Funct7(w) == (low & 0xfe00_0000) >> 25
  {
  }

  lemma {:induction false} DecodesAdd(w: bv32, arch: Arch)
    requires w & 0x707f == 0x13
    ensures DecodeNormal(w, arch) == ImmOp(Add)
  {
    LowBits(w, 0x13);
  }

  lemma {:induction false} DecodesAnd(w: bv32, arch: Arch)
    requires w & 0x707f == 0x7013
    ensures DecodeNormal(w, arch) == ImmOp(And)
  {
    LowBits(w, 0x7013);
  }

  lemma {:induction false} DecodesJalr(w: bv32, arch: Arch)
    requires w & 0x707f == 0x67
    ensures DecodeNormal(w, arch) == JALR
  {
    LowBits(w, 0x67);
  }

  lemma {:induction false} DecodesLoad(w: bv32, double: bool, float: bool, arch: Arch)
    requires w & 0x707f == LowOfLoad(double, float)
    ensures DecodeNormal(w, arch) == LoadOp(WidthOf(double), false, float)
  {
    LowBits(w, LowOfLoad(double, float));
  }

  lemma {:induction false} DecodesStore(w: bv32, double: bool, float: bool, arch: Arch)
    requires w & 0x707f == LowOfStore(double, float)
    ensures DecodeNormal(w, arch) == StoreOp(WidthOf(double), float)
  {
    LowBits(w, LowOfStore(double, float));
  }

  lemma {:induction false} DecodesBranch(w: bv32, onEqual: bool, arch: Arch)
    requires w & 0x707f == LowOfBranch(onEqual)
    ensures DecodeNormal(w, arch) == BranchOp(if onEqual then Eq else Ne)
  {
    LowBits(w, LowOfBranch(onEqual));
  }

  lemma {:induction false} DecodesRegister(w: bv32, alu: Alu, arch: Arch)
    requires w & 0xfe00_707f == LowOfR(alu)
    ensures DecodeNormal(w, arch) == RegOp(alu)
  {
    HighBits(w, LowOfR(alu));
    LowBits(w, LowOfR(alu) & 0x707f);
  }

  lemma {:induction false} ShiftBits(w: bv32, low: bv32)
    requires w & 0xfc00_707f == low
    ensures w & 0x707f == low & 0x707f && Funct6(w) == (low & 0xfc00_0000) >> 26
  {
  }

  lemma {:induction false} DecodesShift(w: bv32, shift: ShiftKind, arch: Arch)
    requires w & 0xfc00_707f == LowOfShift(shift) && (arch == RV32 ==> w & 0xfe00_707f == LowOfShift(shift))
    ensures DecodeNormal(w, arch) == ShiftOp(shift, false)
  {
    ShiftBits(w, LowOfShift(shift));
    LowBits(w, LowOfShift(shift) & 0x707f);
  }

  // ---------------------------------------------------------------- the decoder on the made words

  function DecodedAs(e: Expansion): Mapping { if e.MakeAddiw? then ImmOp(Add) else MappingOf(e) }

  lemma {:induction false} DecodesI(e: Expansion, w: bv32, p: Parts, arch: Arch)
    requires (e.MakeAddi? || e.MakeAddiw? || e.MakeAndi?) && RegsFit(p) && Imms12Fit(p)
    ensures DecodeNormal(Make(e, w, p), arch) == DecodedAs(e)
  {
    var low := if e.MakeAndi? then 0x7013 else 0x13;
    FieldsI(low, RegOf(e.rd, p), RegOf(e.rs1, p), ImmOf(e.imm, p));
    if e.MakeAndi? {
      DecodesAnd(Make(e, w, p), arch);
    } else {
      DecodesAdd(Make(e, w, p), arch);
    }
  }

  lemma {:induction false} DecodesMadeJalr(e: Expansion, w: bv32, p: Parts, arch: Arch)
    requires e.MakeJalr? && RegsFit(p)
    ensures DecodeNormal(Make(e, w, p), arch) == JALR
  {
    FieldsI(0x67, RegOf(e.rd, p), RegOf(e.rs1, p), 0);
    DecodesJalr(Make(e, w, p), arch);
  }

  lemma {:induction false} DecodesMadeLoad(e: Expansion, w: bv32, p: Parts, arch: Arch)
    requires e.MakeLoad? && RegsFit(p) && Imms12Fit(p)
    ensures DecodeNormal(Make(e, w, p), arch) == DecodedAs(e)
  {
    LowsFit();
    FieldsI(LowOfLoad(e.double, e.float), RegOf(e.rd, p), RegOf(e.rs1, p), ImmOf(e.imm, p));
    DecodesLoad(Make(e, w, p), e.double, e.float, arch);
  }

  lemma {:induction false} DecodesMadeStore(e: Expansion, w: bv32, p: Parts, arch: Arch)
    requires e.MakeStore? && RegsFit(p) && Imms12Fit(p)
    ensures DecodeNormal(Make(e, w, p), arch) == DecodedAs(e)
  {
    LowsFit();
    FieldsS(LowOfStore(e.double, e.float), RegOf(e.rs1, p), RegOf(e.rs2, p), ImmOf(e.imm, p));
    DecodesStore(Make(e, w, p), e.double, e.float, arch);
  }

  lemma {:induction false} OpcodeOfRegister(alu: Alu, rd: bv32, rs1: bv32, rs2: bv32, v: bv32)
    requires v == EncodeR(LowOfR(alu), rd, rs1, rs2)
    ensures v & 0xfe00_707f == LowOfR(alu)
  {
    OpcodeR(LowOfR(alu), rd, rs1, rs2, v) by {
      LowsFit();
    }
  }

  lemma {:induction false} DecodesEncodedRegister(alu: Alu, rd: bv32, rs1: bv32, rs2: bv32, v: bv32, arch: Arch)
    requires v == EncodeR(LowOfR(alu), rd, rs1, rs2)
    ensures DecodeNormal(v, arch) == RegOp(alu)
  {
    OpcodeOfRegister(alu, rd, rs1, rs2, v);
    DecodesRegister(v, alu, arch);
  }

  lemma {:induction false} DecodesMadeRegister(e: Expansion, w: bv32, p: Parts, arch: Arch)
    requires e.MakeR?
    ensures DecodeNormal(Make(e, w, p), arch) == DecodedAs(e)
  {
    DecodesEncodedRegister(e.alu, RegOf(e.rd, p), RegOf(e.rs1, p), RegOf(e.rs2, p), Make(e, w, p), arch);
  }

  lemma {:induction false} DecodesEncodedShift(shift: ShiftKind, r: bv32, shamt: bv32, v: bv32, arch: Arch)
    requires v == EncodeShift(LowOfShift(shift), r, r, shamt) && (arch == RV32 ==> shamt & 0x20 == 0)
    ensures DecodeNormal(v, arch) == ShiftOp(shift, false)
  {
    OpcodeShift(LowOfShift(shift), r, r, shamt, v) by {
      LowsFit();
    }
    DecodesShift(v, shift, arch);
  }

  lemma {:induction false} DecodesMadeShift(e: Expansion, w: bv32, p: Parts, arch: Arch)
    requires e.MakeShift? && (arch == RV32 ==> p.uimm & 0x20 == 0)
    ensures DecodeNormal(Make(e, w, p), arch) == DecodedAs(e)
  {
    DecodesEncodedShift(e.shift, RegOf(e.reg, p), p.uimm, Make(e, w, p), arch);
  }

  lemma {:induction false} DecodesMadeBranch(e: Expansion, w: bv32, p: Parts, arch: Arch)
    requires e.MakeBranch? && RegsFit(p) && IsBranchOffset(p.branch)
    ensures DecodeNormal(Make(e, w, p), arch) == DecodedAs(e)
  {
    LowsFit();
    FieldsB(LowOfBranch(e.onEqual), RegOf(e.rs1, p), 0, p.branch);
    DecodesBranch(Make(e, w, p), e.onEqual, arch);
  }

  lemma {:induction false} DecodesLui(w: bv32, arch: Arch)
    requires w & 0x7f == 0x37
    ensures DecodeNormal(w, arch) == LUI
  {
  }

  lemma {:induction false} DecodesJal(w: bv32, arch: Arch)
    requires w & 0x7f == 0x6f
    ensures DecodeNormal(w, arch) == JAL
  {
  }

  lemma {:induction false} DecodesEncodedLui(rd: bv32, imm: bv32, v: bv32, arch: Arch)
    requires v == EncodeU(0x37, rd, imm)
    ensures DecodeNormal(v, arch) == LUI
  {
    OpcodeU(0x37, rd, imm, v);
    DecodesLui(v, arch);
  }

  lemma {:induction false} DecodesEncodedJal(rd: bv32, imm: bv32, v: bv32, arch: Arch)
    requires v == EncodeJ(0x6f, rd, imm)
    ensures DecodeNormal(v, arch) == JAL
  {
    OpcodeJ(0x6f, rd, imm, v);
    DecodesJal(v, arch);
  }

  lemma {:induction false} DecodesMadeLui(e: Expansion, w: bv32, p: Parts, arch: Arch)
    requires e.MakeLui?
    ensures DecodeNormal(Make(e, w, p), arch) == LUI
  {
    DecodesEncodedLui(RegOf(e.rd, p), p.lui, Make(e, w, p), arch);
  }

  lemma {:induction false} DecodesMadeJal(e: Expansion, w: bv32, p: Parts, arch: Arch)
    requires e.MakeJal?
    ensures DecodeNormal(Make(e, w, p), arch) == JAL
  {
    DecodesEncodedJal(RegOf(e.rd, p), p.jal, Make(e, w, p), arch);
  }

  lemma {:induction false} DecodesEbreak(arch: Arch)
    ensures DecodeNormal(0x10_0073, arch) == EBREAK
  {
  }

  lemma {:induction false} DecodesMade12(e: Expansion, w: bv32, p: Parts, arch: Arch)
    requires HasImmediate12(e) && RegsFit(p) && Imms12Fit(p)
    ensures DecodeNormal(Make(e, w, p), arch) == DecodedAs(e)
  {
    match e
    case MakeLoad(_, _, _, _, _) => DecodesMadeLoad(e, w, p, arch);
    case MakeStore(_, _, _, _, _) => DecodesMadeStore(e, w, p, arch);
    case _ => DecodesI(e, w, p, arch);
  }

  lemma {:induction false} DecodesMadeOther(e: Expansion, w: bv32, p: Parts, arch: Arch)
    requires !HasImmediate12(e) && !e.Undefined? && RegsFit(p) && SizedRest(p)
    requires e.MakeShift? && arch == RV32 ==> p.uimm & 0x20 == 0
    ensures DecodeNormal(Make(e, w, p), arch) == DecodedAs(e)
  {
    match e
    case MakeR(_, _, _, _) => DecodesMadeRegister(e, w, p, arch);
    case MakeJalr(_, _) => DecodesMadeJalr(e, w, p, arch);
    case MakeShift(_, _) => DecodesMadeShift(e, w, p, arch);
    case MakeBranch(_, _) => DecodesMadeBranch(e, w, p, arch);
    case MakeLui(_) => DecodesMadeLui(e, w, p, arch);
    case MakeJal(_) => DecodesMadeJal(e, w, p, arch);
    case MakeEbreak => DecodesEbreak(arch);
  }

  lemma {:induction false} ShiftsAreShort(p: Parts, op: COp)
    requires Expand(p, op, RV32).MakeShift? && (p.uimm > 31 <==> p.uimm & 0x20 != 0)
    ensures p.uimm & 0x20 == 0
  {
  }

  /** For every compressed instruction that expands, the normal decoder agrees on the operation if and only if it is not
      ADDIW; the word of ADDIW decodes as ADDI. */
  lemma {:induction false} DecoderAgrees(w: bv32, arch: Arch)
    requires DecodeAndExpand(w, arch).mapping != UNDEF
    ensures var e := DecodeAndExpand(w, arch);
            && (DecodeNormal(e.word, arch) == e.mapping <==> e.mapping != ImmOp(AddWord))
            && (e.mapping == ImmOp(AddWord) ==> DecodeNormal(e.word, arch) == ImmOp(Add))
  {
    var p := PartsOf(w);
    var op := DecodeCompressed(p, arch);
    var e := Expand(p, op, arch);
    PartsAreSized(w);
    AllRegsFit(p);
    AllImms12Fit(p);
    if HasImmediate12(e) {
      DecodesMade12(e, w, p, arch);
    } else {
      if e.MakeShift? && arch == RV32 {
        ShiftsAreShort(p, op);
      }
      DecodesMadeOther(e, w, p, arch);
    }
  }
}
