/** Bit-level facts: every extractor undoes its encoder, and every compressed operand extractor reads the listed bits. */
module RvcFields {
  import opened Instr
  import opened RvcIsa

  function Sext12(x: bv32): bv32 { if x & 0x800 != 0 then x | 0xffff_f000 else x & 0xfff }

  predicate Is12Bit(x: bv32) { Sext12(x) == x }
  predicate IsBranchOffset(x: bv32) { x & 1 == 0 && (x & 0xffff_f000 == 0 || x & 0xffff_f000 == 0xffff_f000) }
  predicate IsJumpOffset(x: bv32) { x & 1 == 0 && (x & 0xfff0_0000 == 0 || x & 0xfff0_0000 == 0xfff0_0000) }
  predicate IsRegister(x: bv32) { x & 0x1f == x }

  /** a and b are equal, piece by piece. */
  predicate SameTop(a: bv32, b: bv32) { a & 0xffff_0000 == b & 0xffff_0000 }
  predicate SameMiddle(a: bv32, b: bv32) { a & 0xff00 == b & 0xff00 }
  predicate SameHigh(a: bv32, b: bv32) { a & 0xffff_0000 == b & 0xffff_0000 && a & 0xff00 == b & 0xff00 }
  predicate SameLow(a: bv32, b: bv32) { a & 0xf0 == b & 0xf0 && a & 0xf == b & 0xf }
  predicate SamePieces(a: bv32, b: bv32) { SameHigh(a, b) && SameLow(a, b) }

  lemma {:induction false} JoinHigh(a: bv32, b: bv32)
    requires SameTop(a, b) && SameMiddle(a, b)
    ensures SameHigh(a, b)
  {
  }

  lemma {:induction false} JoinPieces(a: bv32, b: bv32)
    requires SamePieces(a, b)
    ensures a == b
  {
  }

  // ---------------------------------------------------------------- the extractors undo the encoders

  lemma {:induction false} FieldsR(low: bv32, rd: bv32, rs1: bv32, rs2: bv32)
    requires low & 0xfe00_707f == low && IsRegister(rd) && IsRegister(rs1) && IsRegister(rs2)
    ensures var w := EncodeR(low, rd, rs1, rs2);
            Rd(w) == rd && Rs1(w) == rs1 && Rs2(w) == rs2 && w & 0xfe00_707f == low
  {
  }

  lemma {:induction false} OpcodeR(low: bv32, rd: bv32, rs1: bv32, rs2: bv32, w: bv32)
    requires low & 0xfe00_707f == low && w == EncodeR(low, rd, rs1, rs2)
    ensures w & 0xfe00_707f == low
  {
  }

  lemma {:induction false} RegistersI(low: bv32, rd: bv32, rs1: bv32, imm: bv32, w: bv32)
    requires low & 0x707f == low && w == EncodeI(low, rd, rs1, imm)
    ensures Rd(w) == rd & 0x1f && Rs1(w) == rs1 & 0x1f && w & 0x707f == low
  {
  }

  lemma {:induction false} ImmediateI(low: bv32, rd: bv32, rs1: bv32, imm: bv32, w: bv32)
    requires low & 0x707f == low && w == EncodeI(low, rd, rs1, imm)
    ensures SamePieces(ImmI(w), Sext12(imm))
  {
  }

  lemma {:induction false} FieldsI(low: bv32, rd: bv32, rs1: bv32, imm: bv32)
    requires low & 0x707f == low && IsRegister(rd) && IsRegister(rs1) && Is12Bit(imm)
    ensures var w := EncodeI(low, rd, rs1, imm);
            Rd(w) == rd && Rs1(w) == rs1 && ImmI(w) == imm && w & 0x707f == low
  {
    var w := EncodeI(low, rd, rs1, imm);
    RegistersI(low, rd, rs1, imm, w);
    ImmediateI(low, rd, rs1, imm, w);
    JoinPieces(ImmI(w), Sext12(imm));
  }

  lemma {:induction false} RegistersShift(low: bv32, rd: bv32, rs1: bv32, shamt: bv32, w: bv32)
    requires low & 0xfc00_707f == low && w == EncodeShift(low, rd, rs1, shamt)
    ensures Rd(w) == rd & 0x1f && Rs1(w) == rs1 & 0x1f && Shamt(w) == shamt & 63
  {
  }

  lemma {:induction false} OpcodeShift(low: bv32, rd: bv32, rs1: bv32, shamt: bv32, w: bv32)
    requires low & 0xfc00_707f == low && w == EncodeShift(low, rd, rs1, shamt)
    ensures w & 0xfc00_707f == low && (shamt & 0x20 == 0 ==> w & 0xfe00_707f == low)
  {
  }

  lemma {:induction false} FieldsShift(low: bv32, rd: bv32, rs1: bv32, shamt: bv32)
    requires low & 0xfc00_707f == low && IsRegister(rd) && IsRegister(rs1) && shamt & 63 == shamt
    ensures var w := EncodeShift(low, rd, rs1, shamt); Rd(w) == rd && Rs1(w) == rs1 && Shamt(w) == shamt
  {
    RegistersShift(low, rd, rs1, shamt, EncodeShift(low, rd, rs1, shamt));
  }

  lemma {:induction false} RegistersS(low: bv32, rs1: bv32, rs2: bv32, imm: bv32, w: bv32)
    requires low & 0x707f == low && w == EncodeS(low, rs1, rs2, imm)
    ensures Rs1(w) == rs1 & 0x1f && Rs2(w) == rs2 & 0x1f && w & 0x707f == low
  {
  }

  lemma {:induction false} ImmediateS(low: bv32, rs1: bv32, rs2: bv32, imm: bv32, w: bv32)
    requires low & 0x707f == low && w == EncodeS(low, rs1, rs2, imm)
    ensures SamePieces(ImmS(w), Sext12(imm))
  {
  }

  lemma {:induction false} FieldsS(low: bv32, rs1: bv32, rs2: bv32, imm: bv32)
    requires low & 0x707f == low && IsRegister(rs1) && IsRegister(rs2) && Is12Bit(imm)
    ensures var w := EncodeS(low, rs1, rs2, imm);
            Rs1(w) == rs1 && Rs2(w) == rs2 && ImmS(w) == imm && w & 0x707f == low
  {
    var w := EncodeS(low, rs1, rs2, imm);
    RegistersS(low, rs1, rs2, imm, w);
    ImmediateS(low, rs1, rs2, imm, w);
    JoinPieces(ImmS(w), Sext12(imm));
  }

  lemma {:induction false} PiecesB(low: bv32, rs1: bv32, rs2: bv32, imm: bv32, w: bv32)
    requires low & 0x707f == low && w == EncodeB(low, rs1, rs2, imm)
    ensures (w & 0x80) << 4 == imm & 0x800
    ensures (w & 0x7e00_0000) >> 20 == imm & 0x7e0
    ensures (w & 0xf00) >> 7 == imm & 0x1e
    ensures w & 0x8000_0000 == (imm & 0x1000) << 19
  {
  }

  lemma {:induction false} FillB(imm: bv32, w: bv32)
    requires IsBranchOffset(imm) && w & 0x8000_0000 == (imm & 0x1000) << 19
    ensures Fill31(w, 0xffff_f000) == imm & 0xffff_f000
  {
    if imm & 0xffff_f000 == 0 {
      assert imm & 0x1000 == 0;
    } else {
      assert imm & 0x1000 == 0x1000;
    }
  }

  lemma {:induction false} JoinB(imm: bv32, top: bv32)
    requires imm & 1 == 0 && top == imm & 0xffff_f000
    ensures top | (imm & 0x800) | (imm & 0x7e0) | (imm & 0x1e) == imm
  {
  }

  lemma {:induction false} FieldsB(low: bv32, rs1: bv32, rs2: bv32, imm: bv32)
    requires low & 0x707f == low && IsRegister(rs1) && IsRegister(rs2) && IsBranchOffset(imm)
    ensures var w := EncodeB(low, rs1, rs2, imm);
            Rs1(w) == rs1 && Rs2(w) == rs2 && ImmB(w) == imm && w & 0x707f == low
  {
    var w := EncodeB(low, rs1, rs2, imm);
    assert Rs1(w) == rs1 && Rs2(w) == rs2 && w & 0x707f == low;
    PiecesB(low, rs1, rs2, imm, w);
    FillB(imm, w);
    JoinB(imm, Fill31(w, 0xffff_f000));
  }

  lemma {:induction false} FieldsU(low: bv32, rd: bv32, imm: bv32)
    requires low & 0x7f == low && IsRegister(rd) && imm & 0xffff_f000 == imm
    ensures var w := EncodeU(low, rd, imm); Rd(w) == rd && ImmU(w) == imm && w & 0x7f == low
  {
  }

  lemma {:induction false} OpcodeU(low: bv32, rd: bv32, imm: bv32, w: bv32)
    requires low & 0x7f == low && w == EncodeU(low, rd, imm)
    ensures w & 0x7f == low
  {
  }

  lemma {:induction false} PiecesJ(low: bv32, rd: bv32, imm: bv32, w: bv32)
    requires low & 0x7f == low && IsRegister(rd) && w == EncodeJ(low, rd, imm)
    ensures Rd(w) == rd && w & 0x7f == low
    ensures w & 0xf_f000 == imm & 0xf_f000
    ensures (w & 0x10_0000) >> 9 == imm & 0x800
    ensures (w & 0x7fe0_0000) >> 20 == imm & 0x7fe
    ensures w & 0x8000_0000 == (imm & 0x10_0000) << 11
  {
  }

  lemma {:induction false} OpcodeJ(low: bv32, rd: bv32, imm: bv32, w: bv32)
    requires low & 0x7f == low && w == EncodeJ(low, rd, imm)
    ensures w & 0x7f == low
  {
  }

  lemma {:induction false} FillJ(imm: bv32, w: bv32)
    requires IsJumpOffset(imm) && w & 0x8000_0000 == (imm & 0x10_0000) << 11
    ensures Fill31(w, 0xfff0_0000) == imm & 0xfff0_0000
  {
    if imm & 0xfff0_0000 == 0 {
      assert imm & 0x10_0000 == 0;
    } else {
      assert imm & 0x10_0000 == 0x10_0000;
    }
  }

  lemma {:induction false} JoinJ(imm: bv32, top: bv32)
    requires imm & 1 == 0 && top == imm & 0xfff0_0000
    ensures top | (imm & 0xf_f000) | (imm & 0x800) | (imm & 0x7fe) == imm
  {
  }

  lemma {:induction false} FieldsJ(low: bv32, rd: bv32, imm: bv32)
    requires low & 0x7f == low && IsRegister(rd) && IsJumpOffset(imm)
    ensures var w := EncodeJ(low, rd, imm); Rd(w) == rd && ImmJ(w) == imm && w & 0x7f == low
  {
    var w := EncodeJ(low, rd, imm);
    PiecesJ(low, rd, imm, w);
    FillJ(imm, w);
    JoinJ(imm, Fill31(w, 0xfff0_0000));
  }

  // ---------------------------------------------------------------- the extractors read the base formats

  lemma {:induction false} BaseIHigh(w: bv32, a: bv32, b: bv32)
    requires a == ImmI(w) && b == BaseImmI(w)
    ensures SameHigh(a, b)
  {
  }

  lemma {:induction false} BaseILow(w: bv32, a: bv32, b: bv32)
    requires a == ImmI(w) && b == BaseImmI(w)
    ensures SameLow(a, b)
  {
  }

  lemma {:induction false} BaseIListed(w: bv32)
    ensures ImmI(w) == BaseImmI(w)
  {
    BaseIHigh(w, ImmI(w), BaseImmI(w));
    BaseILow(w, ImmI(w), BaseImmI(w));
    JoinPieces(ImmI(w), BaseImmI(w));
  }

  lemma {:induction false} BaseSHigh(w: bv32, a: bv32, b: bv32)
    requires a == ImmS(w) && b == BaseImmS(w)
    ensures SameHigh(a, b)
  {
  }

  lemma {:induction false} BaseSLow(w: bv32, a: bv32, b: bv32)
    requires a == ImmS(w) && b == BaseImmS(w)
    ensures SameLow(a, b)
  {
  }

  lemma {:induction false} BaseSListed(w: bv32)
    ensures ImmS(w) == BaseImmS(w)
  {
    BaseSHigh(w, ImmS(w), BaseImmS(w));
    BaseSLow(w, ImmS(w), BaseImmS(w));
    JoinPieces(ImmS(w), BaseImmS(w));
  }

  lemma {:induction false} BaseBHigh(w: bv32, a: bv32, b: bv32)
    requires a == ImmB(w) && b == BaseImmB(w)
    ensures SameHigh(a, b)
  {
  }

  lemma {:induction false} BaseBLow(w: bv32, a: bv32, b: bv32)
    requires a == ImmB(w) && b == BaseImmB(w)
    ensures SameLow(a, b)
  {
  }

  lemma {:induction false} BaseBListed(w: bv32)
    ensures ImmB(w) == BaseImmB(w)
  {
    BaseBHigh(w, ImmB(w), BaseImmB(w));
    BaseBLow(w, ImmB(w), BaseImmB(w));
    JoinPieces(ImmB(w), BaseImmB(w));
  }

  lemma {:induction false} BaseJTop(w: bv32, a: bv32, b: bv32)
    requires a == ImmJ(w) && b == BaseImmJ(w)
    ensures SameTop(a, b)
  {
  }

  lemma {:induction false} BaseJMiddle(w: bv32, a: bv32, b: bv32)
    requires a == ImmJ(w) && b == BaseImmJ(w)
    ensures SameMiddle(a, b)
  {
  }

  lemma {:induction false} BaseJLow(w: bv32, a: bv32, b: bv32)
    requires a == ImmJ(w) && b == BaseImmJ(w)
    ensures SameLow(a, b)
  {
  }

  lemma {:induction false} BaseJListed(w: bv32)
    ensures ImmJ(w) == BaseImmJ(w)
  {
    BaseJTop(w, ImmJ(w), BaseImmJ(w));
    BaseJMiddle(w, ImmJ(w), BaseImmJ(w));
    JoinHigh(ImmJ(w), BaseImmJ(w));
    BaseJLow(w, ImmJ(w), BaseImmJ(w));
    JoinPieces(ImmJ(w), BaseImmJ(w));
  }

  lemma {:induction false} BaseRegisters(w: bv32)
    ensures Rd(w) == (w >> 7) & 31 && Rs1(w) == (w >> 15) & 31 && Rs2(w) == (w >> 20) & 31 && Shamt(w) == (w >> 20) & 63
    ensures ImmU(w) == (w >> 12) << 12
  {
  }

  /** Every register and immediate of the base ISA is read from where its format puts it. */
  lemma {:induction false} BaseFieldsAreListed(w: bv32)
    ensures Rd(w) == (w >> 7) & 31 && Rs1(w) == (w >> 15) & 31 && Rs2(w) == (w >> 20) & 31 && Shamt(w) == (w >> 20) & 63
    ensures ImmI(w) == BaseImmI(w) && ImmS(w) == BaseImmS(w) && ImmB(w) == BaseImmB(w) && ImmJ(w) == BaseImmJ(w)
    ensures ImmU(w) == (w >> 12) << 12
  {
    BaseRegisters(w);
    BaseIListed(w);
    BaseSListed(w);
    BaseBListed(w);
    BaseJListed(w);
  }

  /** Every branch and jump of the base ISA goes an even distance. */
  lemma {:induction false} OffsetsAreEven(w: bv32)
    ensures ImmB(w) & 1 == 0 && ImmJ(w) & 1 == 0
  {
  }

  // ---------------------------------------------------------------- the compressed operands are the listed ones

  lemma {:induction false} Registers(w: bv32)
    ensures IsRegister(Rd(w)) && Rd(w) == Field5At7(w)
    ensures IsRegister(CRs2(w)) && CRs2(w) == Field5At2(w)
    ensures IsRegister(CRdSmall(w)) && CRdSmall(w) == PopularAt7(w)
    ensures IsRegister(CRs2Small(w)) && CRs2Small(w) == PopularAt2(w)
  {
  }

  lemma {:induction false} Imm6Pieces(w: bv32, a: bv32, b: bv32)
    requires a == CImm(w) && b == Imm6(w)
    ensures SamePieces(a, b)
  {
  }

  lemma {:induction false} Imm6Listed(w: bv32)
    ensures CImm(w) == Imm6(w)
  {
    Imm6Pieces(w, CImm(w), Imm6(w));
    JoinPieces(CImm(w), Imm6(w));
  }

  lemma {:induction false} Imm6Fits(w: bv32)
    ensures Is12Bit(CImm(w))
  {
  }

  lemma {:induction false} Uimm6Pieces(w: bv32, a: bv32, b: bv32)
    requires a == CUimm(w) && b == Uimm6(w)
    ensures SamePieces(a, b)
  {
  }

  lemma {:induction false} Uimm6Listed(w: bv32)
    ensures CUimm(w) == Uimm6(w)
  {
    Uimm6Pieces(w, CUimm(w), Uimm6(w));
    JoinPieces(CUimm(w), Uimm6(w));
  }

  lemma {:induction false} Uimm6Fits(w: bv32)
    ensures CUimm(w) & 63 == CUimm(w) && (CUimm(w) > 31 <==> CUimm(w) & 0x20 != 0)
  {
  }

  lemma {:induction false} Addi4spnPieces(w: bv32, a: bv32, b: bv32)
    requires a == CAddi4spnImm(w) && b == ImmAddi4spn(w)
    ensures SamePieces(a, b)
  {
  }

  lemma {:induction false} Addi4spnListed(w: bv32)
    ensures CAddi4spnImm(w) == ImmAddi4spn(w)
  {
    Addi4spnPieces(w, CAddi4spnImm(w), ImmAddi4spn(w));
    JoinPieces(CAddi4spnImm(w), ImmAddi4spn(w));
  }

  lemma {:induction false} Addi4spnFits(w: bv32)
    ensures Is12Bit(CAddi4spnImm(w))
  {
  }

  lemma {:induction false} WordPieces(w: bv32, a: bv32, b: bv32)
    requires a == CLwImm(w) && b == ImmWord(w)
    ensures SamePieces(a, b)
  {
  }

  lemma {:induction false} WordListed(w: bv32)
    ensures CLwImm(w) == ImmWord(w)
  {
    WordPieces(w, CLwImm(w), ImmWord(w));
    JoinPieces(CLwImm(w), ImmWord(w));
  }

  lemma {:induction false} WordFits(w: bv32)
    ensures Is12Bit(CLwImm(w))
  {
  }

  lemma {:induction false} DoublePieces(w: bv32, a: bv32, b: bv32)
    requires a == CLdImm(w) && b == ImmDouble(w)
    ensures SamePieces(a, b)
  {
  }

  lemma {:induction false} DoubleListed(w: bv32)
    ensures CLdImm(w) == ImmDouble(w)
  {
    DoublePieces(w, CLdImm(w), ImmDouble(w));
    JoinPieces(CLdImm(w), ImmDouble(w));
  }

  lemma {:induction false} DoubleFits(w: bv32)
    ensures Is12Bit(CLdImm(w))
  {
  }

  lemma {:induction false} JumpPiecesHigh(w: bv32, a: bv32, b: bv32)
    requires a == CJalImm(w) && b == ImmJump(w)
    ensures SameHigh(a, b)
  {
  }

  lemma {:induction false} JumpPiecesLow(w: bv32, a: bv32, b: bv32)
    requires a == CJalImm(w) && b == ImmJump(w)
    ensures SameLow(a, b)
  {
  }

  lemma {:induction false} JumpListed(w: bv32)
    ensures CJalImm(w) == ImmJump(w)
  {
    JumpPiecesHigh(w, CJalImm(w), ImmJump(w));
    JumpPiecesLow(w, CJalImm(w), ImmJump(w));
    JoinPieces(CJalImm(w), ImmJump(w));
  }

  lemma {:induction false} JumpFits(w: bv32)
    ensures IsJumpOffset(CJalImm(w))
  {
  }

  lemma {:induction false} Addi16spPieces(w: bv32, a: bv32, b: bv32)
    requires a == CAddi16spImm(w) && b == ImmAddi16sp(w)
    ensures SamePieces(a, b)
  {
  }

  lemma {:induction false} Addi16spListed(w: bv32)
    ensures CAddi16spImm(w) == ImmAddi16sp(w)
  {
    Addi16spPieces(w, CAddi16spImm(w), ImmAddi16sp(w));
    JoinPieces(CAddi16spImm(w), ImmAddi16sp(w));
  }

  lemma {:induction false} Addi16spFits(w: bv32)
    ensures Is12Bit(CAddi16spImm(w))
  {
  }

  lemma {:induction false} LuiPieces(w: bv32, a: bv32, b: bv32)
    requires a == CLuiImm(w) && b == ImmLui(w)
    ensures SamePieces(a, b)
  {
  }

  lemma {:induction false} LuiListed(w: bv32)
    ensures CLuiImm(w) == ImmLui(w)
  {
    LuiPieces(w, CLuiImm(w), ImmLui(w));
    JoinPieces(CLuiImm(w), ImmLui(w));
  }

  lemma {:induction false} LuiFits(w: bv32)
    ensures CLuiImm(w) & 0xffff_f000 == CLuiImm(w)
  {
  }

  lemma {:induction false} BranchPieces(w: bv32, a: bv32, b: bv32)
    requires a == CBranchImm(w) && b == ImmBranch(w)
    ensures SamePieces(a, b)
  {
  }

  lemma {:induction false} BranchListed(w: bv32)
    ensures CBranchImm(w) == ImmBranch(w)
  {
    BranchPieces(w, CBranchImm(w), ImmBranch(w));
    JoinPieces(CBranchImm(w), ImmBranch(w));
  }

  lemma {:induction false} BranchFits(w: bv32)
    ensures IsBranchOffset(CBranchImm(w))
  {
  }

  lemma {:induction false} LwspPieces(w: bv32, a: bv32, b: bv32)
    requires a == CLwspImm(w) && b == ImmLwsp(w)
    ensures SamePieces(a, b)
  {
  }

  lemma {:induction false} LwspListed(w: bv32)
    ensures CLwspImm(w) == ImmLwsp(w)
  {
    LwspPieces(w, CLwspImm(w), ImmLwsp(w));
    JoinPieces(CLwspImm(w), ImmLwsp(w));
  }

  lemma {:induction false} LwspFits(w: bv32)
    ensures Is12Bit(CLwspImm(w))
  {
  }

  lemma {:induction false} LdspPieces(w: bv32, a: bv32, b: bv32)
    requires a == CLdspImm(w) && b == ImmLdsp(w)
    ensures SamePieces(a, b)
  {
  }

  lemma {:induction false} LdspListed(w: bv32)
    ensures CLdspImm(w) == ImmLdsp(w)
  {
    LdspPieces(w, CLdspImm(w), ImmLdsp(w));
    JoinPieces(CLdspImm(w), ImmLdsp(w));
  }

  lemma {:induction false} LdspFits(w: bv32)
    ensures Is12Bit(CLdspImm(w))
  {
  }

  lemma {:induction false} SwspPieces(w: bv32, a: bv32, b: bv32)
    requires a == CSwspImm(w) && b == ImmSwsp(w)
    ensures SamePieces(a, b)
  {
  }

  lemma {:induction false} SwspListed(w: bv32)
    ensures CSwspImm(w) == ImmSwsp(w)
  {
    SwspPieces(w, CSwspImm(w), ImmSwsp(w));
    JoinPieces(CSwspImm(w), ImmSwsp(w));
  }

  lemma {:induction false} SwspFits(w: bv32)
    ensures Is12Bit(CSwspImm(w))
  {
  }

  lemma {:induction false} SdspPieces(w: bv32, a: bv32, b: bv32)
    requires a == CSdspImm(w) && b == ImmSdsp(w)
    ensures SamePieces(a, b)
  {
  }

  lemma {:induction false} SdspListed(w: bv32)
    ensures CSdspImm(w) == ImmSdsp(w)
  {
    SdspPieces(w, CSdspImm(w), ImmSdsp(w));
    JoinPieces(CSdspImm(w), ImmSdsp(w));
  }

  lemma {:induction false} SdspFits(w: bv32)
    ensures Is12Bit(CSdspImm(w))
  {
  }

  lemma {:induction false} SelectorsListed(w: bv32)
    ensures COpcode(w) == (w >> 13) & 7 && CF2High(w) == (w >> 10) & 3 && CF2Low(w) == (w >> 5) & 3
    ensures CB12(w) == (w >> 12) & 1
  {
  }

  /** The simulator reads exactly the operands that the ISA lays out. */
  lemma {:induction false} PartsAreListed(w: bv32)
    ensures PartsOf(w) == ListedParts(w)
  {
    SelectorsListed(w);
    Registers(w);
    Imm6Listed(w);
    Uimm6Listed(w);
    Addi4spnListed(w);
    WordListed(w);
    DoubleListed(w);
    JumpListed(w);
    Addi16spListed(w);
    LuiListed(w);
    BranchListed(w);
    LwspListed(w);
    LdspListed(w);
    SwspListed(w);
    SdspListed(w);
  }

  /** What the decoder's choices need to know about the parts. */
  predicate Selected(p: Parts) {
    && p.quadrant <= 3 && p.f3 <= 7 && p.b12 <= 1 && p.high <= 3 && p.low <= 3
    && (p.format == 0 ==> p.addi4spn == 0) && (p.format == 1 ==> p.rd == 0 && p.imm == 0)
    && (p.uimm > 31 <==> p.uimm & 0x20 != 0)
  }

  /** The operands fit the formats they are encoded in. */
  predicate SizedRegs(p: Parts) { IsRegister(p.rd) && IsRegister(p.rs2) && IsRegister(p.rdSmall) && IsRegister(p.rs2Small) }
  predicate Sized12(p: Parts) {
    && Is12Bit(p.imm) && Is12Bit(p.addi4spn) && Is12Bit(p.lw) && Is12Bit(p.ld) && Is12Bit(p.addi16sp)
    && Is12Bit(p.lwsp) && Is12Bit(p.swsp) && Is12Bit(p.ldsp) && Is12Bit(p.sdsp)
  }
  predicate SizedRest(p: Parts) {
    p.uimm & 63 == p.uimm && IsJumpOffset(p.jal) && p.lui & 0xffff_f000 == p.lui && IsBranchOffset(p.branch)
  }

  lemma {:induction false} SelectorsSized(w: bv32)
    ensures Quadrant(w) <= 3 && COpcode(w) <= 7 && CB12(w) <= 1 && CF2High(w) <= 3 && CF2Low(w) <= 3
    ensures CFormat(w) == 0 ==> CAddi4spnImm(w) == 0
    ensures CFormat(w) == 1 ==> Rd(w) == 0 && CImm(w) == 0
  {
  }

  lemma {:induction false} PartsAreSized(w: bv32)
    ensures SizedRegs(PartsOf(w)) && Sized12(PartsOf(w)) && SizedRest(PartsOf(w)) && Selected(PartsOf(w))
  {
    SelectorsSized(w);
    Registers(w);
    Imm6Fits(w);
    Uimm6Fits(w);
    Addi4spnFits(w);
    WordFits(w);
    DoubleFits(w);
    JumpFits(w);
    Addi16spFits(w);
    LuiFits(w);
    BranchFits(w);
    LwspFits(w);
    LdspFits(w);
    SwspFits(w);
    SdspFits(w);
  }
}
