/** Compressed instructions: what the simulator executes for each of them against what the ISA says it does. */
module Rvc {
  import opened Instr
  import opened RvcIsa
  import opened RvcFields
  import opened MulDiv
  import opened Bits

  // ---------------------------------------------------------------- execution

  /** What exec_step reads out of a word for the operation it was told to execute; imm is the shift amount of a shift. */
  datatype Fields = Fields(mapping: Mapping, rd: bv32, rs1: bv32, rs2: bv32, imm: bv32)

  function Operands(e: Expanded): Fields {
    var w, m := e.word, e.mapping;
    match m
    case RegOp(_) => Fields(m, Rd(w), Rs1(w), Rs2(w), 0)
    case ImmOp(_) => Fields(m, Rd(w), Rs1(w), 0, ImmI(w))
    case ShiftOp(_, _) => Fields(m, Rd(w), Rs1(w), 0, Shamt(w))
    case LoadOp(_, _, _) => Fields(m, Rd(w), Rs1(w), 0, ImmI(w))
    case StoreOp(_, _) => Fields(m, 0, Rs1(w), Rs2(w), ImmS(w))
    case BranchOp(_) => Fields(m, 0, Rs1(w), Rs2(w), ImmB(w))
    case LUI => Fields(m, Rd(w), 0, 0, ImmU(w))
    case JAL => Fields(m, Rd(w), 0, 0, ImmJ(w))
    case JALR => Fields(m, Rd(w), Rs1(w), 0, ImmI(w))
    case _ => Fields(m, 0, 0, 0, 0)
  }

  /** The register write of a case, followed by run_step's reset of register zero. */
  function Settle(regs: Regs, rd: nat, v: int): Regs { regs[rd := v][0 := 0] }

  /** Operations that are illegal on RV32. */
  predicate OnlyRv64(m: Mapping) {
    match m
    case RegOp(alu) => alu == AddWord || alu == SubWord
    case ImmOp(alu) => alu == AddWord
    case ShiftOp(_, word) => word
    case RegShiftOp(_, word) => word
    case LoadOp(width, unsigned, float) => !float && (width == Double || (width == Word && unsigned))
    case StoreOp(width, float) => !float && width == Double
    case _ => false
  }

  predicate Taken(arch: Arch, cond: Cond, x: int, y: int) {
    match cond
    case Eq => x == y
    case Ne => x != y
    case Lt => x < y
    case Ge => x >= y
    case Ltu => Unsigned(x, Half(arch)) < Unsigned(y, Half(arch))
    case Geu => Unsigned(x, Half(arch)) >= Unsigned(y, Half(arch))
  }

  /** A jump, after the link was taken; rd is written only when the target is aligned. */
  function JumpTo(target: nat, s: State, rd: nat, link: int): Effect {
    if target % 2 != 0 then Misaligned(target) else Done(State(target, Settle(s.regs, rd, link)))
  }

  /** The word forms convert both operands to 32 bits before they add. */
  function Evaluate(arch: Arch, alu: Alu, x: int, y: int): int {
    match alu
    case AddWord => Narrow(Narrow(x, HALF32) + Narrow(y, HALF32), HALF32)
    case SubWord => Narrow(Narrow(x, HALF32) - Narrow(y, HALF32), HALF32)
    case _ => Compute(arch, alu, x, y)
  }

  /** The operands of a case of exec_step as numbers. */
  datatype Base = Base(mapping: Mapping, rd: nat, rs1: nat, rs2: nat, imm: int)

  /** One case of exec_step for an instruction of two bytes; s.pc is the address of the instruction (last_pc). */
  function Run(b: Base, arch: Arch, s: State): Effect {
    var pc := Address(arch, s.pc + 2);
    if arch == RV32 && OnlyRv64(b.mapping) then Illegal
    else
      match b.mapping
      case UNDEF => Illegal
      case EBREAK => Breakpoint(pc)
      case RegOp(alu) => Done(State(pc, Settle(s.regs, b.rd, Evaluate(arch, alu, Get(s, b.rs1), Get(s, b.rs2)))))
      case ImmOp(alu) => Done(State(pc, Settle(s.regs, b.rd, Evaluate(arch, alu, Get(s, b.rs1), b.imm))))
      case ShiftOp(shift, false) => Done(State(pc, Settle(s.regs, b.rd, ShiftBy(arch, shift, Get(s, b.rs1), b.imm))))
      case LoadOp(width, unsigned, float) =>
        Loads(width, unsigned, float, b.rd, Address(arch, Get(s, b.rs1) + b.imm), pc)
      case StoreOp(width, float) =>
        var address := Address(arch, Get(s, b.rs1) + b.imm);
        if float then StoresFloat(width, address, b.rs2, pc) else Stores(width, address, Get(s, b.rs2), pc)
      case BranchOp(cond) =>
        if Taken(arch, cond, Get(s, b.rs1), Get(s, b.rs2)) then
          var target := Address(arch, s.pc + b.imm);
          if target % 2 != 0 then Misaligned(target) else Done(State(target, s.regs[0 := 0]))
        else Done(State(pc, s.regs[0 := 0]))
      case LUI => Done(State(pc, Settle(s.regs, b.rd, b.imm)))
      case JAL => JumpTo(Address(arch, s.pc + b.imm), s, b.rd, Fit(arch, s.pc + 2))
      case JALR => JumpTo(Even(Address(arch, Get(s, b.rs1) + b.imm)), s, b.rd, Fit(arch, s.pc + 2))
      case _ => Unmodelled
  }

  function Numeric(f: Fields): Base { Base(f.mapping, Number(f.rd), Number(f.rs1), Number(f.rs2), Signed(f.imm)) }

  /** exec_step on the expanded instruction. */
  function Execute(e: Expanded, arch: Arch, s: State): Effect { Run(Numeric(Operands(e)), arch, s) }

  // ---------------------------------------------------------------- the base instruction behind each compressed one

  function ToBase(op: RvcOp, x: nat, y: nat, imm: int): Base {
    match op
    case Reserved => Base(UNDEF, 0, 0, 0, 0)
    case Ebreak => Base(EBREAK, 0, 0, 0, 0)
    case Addi4spn => Base(ImmOp(Add), x, 2, 0, imm)
    case Load(double, float) => Base(LoadOp(WidthOf(double), false, float), x, y, 0, imm)
    case Store(double, float) => Base(StoreOp(WidthOf(double), float), 0, y, x, imm)
    case Addi => Base(ImmOp(Add), x, x, 0, imm)
    case Addiw => Base(ImmOp(AddWord), x, x, 0, imm)
    case Li => Base(ImmOp(Add), x, 0, 0, imm)
    case Addi16sp => Base(ImmOp(Add), 2, 2, 0, imm)
    case Lui => Base(LUI, x, 0, 0, imm)
    case Shift(kind) => Base(ShiftOp(kind, false), x, x, 0, imm)
    case Andi => Base(ImmOp(And), x, x, 0, imm)
    case Combine(alu) => Base(RegOp(alu), x, x, y, 0)
    case Mv => Base(RegOp(Add), x, 0, y, 0)
    case J => Base(JAL, 0, 0, 0, imm)
    case Jal => Base(JAL, 1, 0, 0, imm)
    case Jr => Base(JALR, 0, x, 0, 0)
    case Jalr => Base(JALR, 1, x, 0, 0)
    case Beqz => Base(BranchOp(Eq), 0, x, 0, imm)
    case Bnez => Base(BranchOp(Ne), 0, x, 0, imm)
  }

  // ---------------------------------------------------------------- the base instruction has the compressed meaning

  lemma {:induction false} SettleIsPut(regs: Regs, rd: nat, v: int)
    requires 0 in regs && regs[0] == 0
    ensures Settle(regs, rd, v) == Put(regs, rd, v) && regs[0 := 0] == regs
  {
  }

  /** Converting first and once more at the end is converting at the end. */
  lemma {:induction false} NarrowSum(x: int, y: int, h: int)
    requires h > 0
    ensures Narrow(Narrow(x, h) + Narrow(y, h), h) == Narrow(x + y, h)
    ensures Narrow(Narrow(x, h) - Narrow(y, h), h) == Narrow(x - y, h)
  {
    var i := NarrowGap(x, h);
    var j := NarrowGap(y, h);
    var a, b := Narrow(x, h), Narrow(y, h);
    NarrowOfShift(a + y, h, i);
    NarrowOfShift(a + b, h, j);
    NarrowOfShift(a - y, h, i);
    NarrowOfShift(a - y, h, j);
  }

  lemma {:induction false} EvaluateIsCompute(arch: Arch, alu: Alu, x: int, y: int)
    ensures Evaluate(arch, alu, x, y) == Compute(arch, alu, x, y)
  {
    NarrowSum(x, y, HALF32);
  }

  lemma {:induction false} ParityKept(x: int, h: int)
    requires h > 0 && h % 2 == 0 && x % 2 == 0
    ensures Unsigned(x, h) % 2 == 0 && Narrow(x, h) % 2 == 0
  {
    var k := UnsignedGap(x, h);
    MulAssoc(2, h, k);
    AddMultiple(x, 2, -(h * k));
    AddMultiple(Unsigned(x, h), 2, -h);
  }

  predicate IsRv64Op(op: RvcOp) {
    match op
    case Addiw => true
    case Combine(alu) => alu == AddWord || alu == SubWord
    case Load(double, float) => double && !float
    case Store(double, float) => double && !float
    case _ => false
  }

  predicate HasOffset(op: RvcOp) { op.J? || op.Jal? || op.Beqz? || op.Bnez? }

  /** Operations of RV64 alone are not listed for RV32, immediates fit 32 bits, and offsets are even. */
  predicate WellFormed(op: RvcOp, imm: int, arch: Arch) {
    && (arch == RV32 ==> !IsRv64Op(op))
    && IsReg(imm, HALF32)
    && (HasOffset(op) ==> imm % 2 == 0)
  }

  lemma {:induction false} OffsetMeaning(op: RvcOp, x: nat, y: nat, imm: int, arch: Arch, s: State)
    requires Valid(s, arch) && WellFormed(op, imm, arch) && HasOffset(op)
    ensures Run(ToBase(op, x, y, imm), arch, s) == Meaning(op, x, y, imm, arch, s)
  {
    ParityKept(s.pc + imm, Half(arch));
    SettleIsPut(s.regs, if op.Jal? then 1 else 0, Fit(arch, s.pc + 2));
  }

  lemma {:induction false} EvenIsEven(x: nat)
    ensures Even(x) % 2 == 0
  {
    QuotientIs(Even(x), 2, x / 2, 0);
  }

  lemma {:induction false} IndirectMeaning(op: RvcOp, x: nat, y: nat, imm: int, arch: Arch, s: State)
    requires Valid(s, arch) && (op.Jr? || op.Jalr?)
    ensures Run(ToBase(op, x, y, imm), arch, s) == Meaning(op, x, y, imm, arch, s)
  {
    EvenIsEven(Address(arch, Get(s, x)));
    SettleIsPut(s.regs, if op.Jalr? then 1 else 0, Fit(arch, s.pc + 2));
  }

  lemma {:induction false} RegRegMeaning(op: RvcOp, x: nat, y: nat, imm: int, arch: Arch, s: State)
    requires Valid(s, arch) && WellFormed(op, imm, arch) && (op.Combine? || op.Mv?)
    ensures Run(ToBase(op, x, y, imm), arch, s) == Meaning(op, x, y, imm, arch, s)
  {
    var b := ToBase(op, x, y, imm);
    EvaluateIsCompute(arch, b.mapping.alu, Get(s, b.rs1), Get(s, y));
    SettleIsPut(s.regs, x, Compute(arch, b.mapping.alu, Get(s, b.rs1), Get(s, y)));
  }

  lemma {:induction false} AddiMeaning(op: RvcOp, x: nat, y: nat, imm: int, arch: Arch, s: State)
    requires Valid(s, arch) && (op.Addi4spn? || op.Addi? || op.Addi16sp?)
    ensures Run(ToBase(op, x, y, imm), arch, s) == Meaning(op, x, y, imm, arch, s)
  {
    var b := ToBase(op, x, y, imm);
    SettleIsPut(s.regs, b.rd, Fit(arch, Get(s, b.rs1) + imm));
  }

  lemma {:induction false} AddiwOrAndiMeaning(op: RvcOp, x: nat, y: nat, imm: int, arch: Arch, s: State)
    requires Valid(s, arch) && WellFormed(op, imm, arch) && (op.Addiw? || op.Andi?)
    ensures Run(ToBase(op, x, y, imm), arch, s) == Meaning(op, x, y, imm, arch, s)
  {
    var alu := if op.Andi? then And else AddWord;
    EvaluateIsCompute(arch, alu, Get(s, x), imm);
    SettleIsPut(s.regs, x, Compute(arch, alu, Get(s, x), imm));
  }

  lemma {:induction false} LiMeaning(x: nat, y: nat, imm: int, arch: Arch, s: State)
    requires Valid(s, arch) && IsReg(imm, HALF32)
    ensures Run(ToBase(Li, x, y, imm), arch, s) == Meaning(Li, x, y, imm, arch, s)
  {
    NarrowOfReg(imm, Half(arch));
    SettleIsPut(s.regs, x, imm);
  }

  lemma {:induction false} OtherMeaning(op: RvcOp, x: nat, y: nat, imm: int, arch: Arch, s: State)
    requires Valid(s, arch) && WellFormed(op, imm, arch)
    requires op.Reserved? || op.Ebreak? || op.Load? || op.Store? || op.Shift? || op.Lui?
    ensures Run(ToBase(op, x, y, imm), arch, s) == Meaning(op, x, y, imm, arch, s)
  {
    match op
    case Shift(kind) => SettleIsPut(s.regs, x, ShiftBy(arch, kind, Get(s, x), imm));
    case Lui => SettleIsPut(s.regs, x, imm);
    case _ =>
  }

  lemma {:induction false} BaseMeaning(op: RvcOp, x: nat, y: nat, imm: int, arch: Arch, s: State)
    requires Valid(s, arch) && WellFormed(op, imm, arch)
    ensures Run(ToBase(op, x, y, imm), arch, s) == Meaning(op, x, y, imm, arch, s)
  {
    if HasOffset(op) {
      OffsetMeaning(op, x, y, imm, arch, s);
    } else if op.Jr? || op.Jalr? {
      IndirectMeaning(op, x, y, imm, arch, s);
    } else if op.Combine? || op.Mv? {
      RegRegMeaning(op, x, y, imm, arch, s);
    } else if op.Li? {
      LiMeaning(x, y, imm, arch, s);
    } else if op.Addi4spn? || op.Addi? || op.Addi16sp? {
      AddiMeaning(op, x, y, imm, arch, s);
    } else if op.Addiw? || op.Andi? {
      AddiwOrAndiMeaning(op, x, y, imm, arch, s);
    } else {
      OtherMeaning(op, x, y, imm, arch, s);
    }
  }

  // ---------------------------------------------------------------- execution reads what the factory was given

  lemma {:induction false} ReadsBackR(m: Mapping, low: bv32, rd: bv32, rs1: bv32, rs2: bv32)
    requires low & 0xfe00_707f == low && m.RegOp? && IsRegister(rd) && IsRegister(rs1) && IsRegister(rs2)
    ensures Operands(Expanded(EncodeR(low, rd, rs1, rs2), m)) == Fields(m, rd, rs1, rs2, 0)
  {
    FieldsR(low, rd, rs1, rs2);
  }

  lemma {:induction false} ReadsBackI(m: Mapping, low: bv32, rd: bv32, rs1: bv32, imm: bv32)
    requires low & 0x707f == low && (m.ImmOp? || m.LoadOp? || m.JALR?) && IsRegister(rd) && IsRegister(rs1) && Is12Bit(imm)
    ensures Operands(Expanded(EncodeI(low, rd, rs1, imm), m)) == Fields(m, rd, rs1, 0, imm)
  {
    FieldsI(low, rd, rs1, imm);
  }

  lemma {:induction false} ReadsBackShift(m: Mapping, low: bv32, rd: bv32, rs1: bv32, shamt: bv32)
    requires low & 0xfc00_707f == low && m.ShiftOp? && IsRegister(rd) && IsRegister(rs1) && shamt & 63 == shamt
    ensures Operands(Expanded(EncodeShift(low, rd, rs1, shamt), m)) == Fields(m, rd, rs1, 0, shamt)
  {
    FieldsShift(low, rd, rs1, shamt);
  }

  lemma {:induction false} ReadsBackS(m: Mapping, low: bv32, rs1: bv32, rs2: bv32, imm: bv32)
    requires low & 0x707f == low && m.StoreOp? && IsRegister(rs1) && IsRegister(rs2) && Is12Bit(imm)
    ensures Operands(Expanded(EncodeS(low, rs1, rs2, imm), m)) == Fields(m, 0, rs1, rs2, imm)
  {
    FieldsS(low, rs1, rs2, imm);
  }

  lemma {:induction false} ReadsBackB(m: Mapping, low: bv32, rs1: bv32, rs2: bv32, imm: bv32)
    requires low & 0x707f == low && m.BranchOp? && IsRegister(rs1) && IsRegister(rs2) && IsBranchOffset(imm)
    ensures Operands(Expanded(EncodeB(low, rs1, rs2, imm), m)) == Fields(m, 0, rs1, rs2, imm)
  {
    FieldsB(low, rs1, rs2, imm);
  }

  lemma {:induction false} ReadsBackU(m: Mapping, low: bv32, rd: bv32, imm: bv32)
    requires low & 0x7f == low && m.LUI? && IsRegister(rd) && imm & 0xffff_f000 == imm
    ensures Operands(Expanded(EncodeU(low, rd, imm), m)) == Fields(m, rd, 0, 0, imm)
  {
    FieldsU(low, rd, imm);
  }

  lemma {:induction false} ReadsBackJ(m: Mapping, low: bv32, rd: bv32, imm: bv32)
    requires low & 0x7f == low && m.JAL? && IsRegister(rd) && IsJumpOffset(imm)
    ensures Operands(Expanded(EncodeJ(low, rd, imm), m)) == Fields(m, rd, 0, 0, imm)
  {
    FieldsJ(low, rd, imm);
  }

  /** The operands of an operation as arguments of a factory call. */
  datatype Given = Given(mapping: Mapping, rd: Reg, rs1: Reg, rs2: Reg, imm: Imm)

  function GivenTo(e: Expansion): Given {
    var m := MappingOf(e);
    match e
    case MakeR(_, rd, rs1, rs2) => Given(m, rd, rs1, rs2, NoImm)
    case MakeAddi(rd, rs1, imm) => Given(m, rd, rs1, X0, imm)
    case MakeAddiw(rd, rs1, imm) => Given(m, rd, rs1, X0, imm)
    case MakeAndi(rd, rs1, imm) => Given(m, rd, rs1, X0, imm)
    case MakeJalr(rd, rs1) => Given(m, rd, rs1, X0, NoImm)
    case MakeLoad(_, _, rd, rs1, imm) => Given(m, rd, rs1, X0, imm)
    case MakeStore(_, _, rs1, rs2, imm) => Given(m, X0, rs1, rs2, imm)
    case MakeShift(_, reg) => Given(m, reg, reg, X0, AUimm)
    case MakeBranch(_, rs1) => Given(m, X0, rs1, X0, ABranch)
    case MakeLui(rd) => Given(m, rd, X0, X0, ALui)
    case MakeJal(rd) => Given(m, rd, X0, X0, AJal)
    case _ => Given(m, X0, X0, X0, NoImm)
  }

  function Evaluated(g: Given, p: Parts): Fields {
    Fields(g.mapping, RegOf(g.rd, p), RegOf(g.rs1, p), RegOf(g.rs2, p), ImmOf(g.imm, p))
  }

  /** What execution reads out of the made word is what was put in. */
  predicate Faithful(e: Expansion, w: bv32, p: Parts) {
    Operands(Expanded(Make(e, w, p), MappingOf(e))) == Evaluated(GivenTo(e), p)
  }

  lemma {:induction false} LowsFit()
    ensures forall alu :: LowOfR(alu) & 0xfe00_707f == LowOfR(alu)
    ensures forall double, float :: LowOfLoad(double, float) & 0x707f == LowOfLoad(double, float)
    ensures forall double, float :: LowOfStore(double, float) & 0x707f == LowOfStore(double, float)
    ensures forall shift :: LowOfShift(shift) & 0xfc00_707f == LowOfShift(shift)
    ensures forall onEqual :: LowOfBranch(onEqual) & 0x707f == LowOfBranch(onEqual)
  {
  }

  /** Every argument fits the formats it is used in. */
  ghost predicate RegsFit(p: Parts) { forall r: Reg :: IsRegister(RegOf(r, p)) }
  ghost predicate Imms12Fit(p: Parts) { forall i: Imm12 :: Is12Bit(ImmOf(i, p)) }

  lemma {:induction false} AllRegsFit(p: Parts)
    requires SizedRegs(p)
    ensures RegsFit(p)
  {
  }

  lemma {:induction false} AllImms12Fit(p: Parts)
    requires Sized12(p)
    ensures Imms12Fit(p)
  {
  }

  lemma {:induction false} FaithfulR(e: Expansion, w: bv32, p: Parts)
    requires e.MakeR? && RegsFit(p)
    ensures Faithful(e, w, p)
  {
    LowsFit();
    ReadsBackR(MappingOf(e), LowOfR(e.alu), RegOf(e.rd, p), RegOf(e.rs1, p), RegOf(e.rs2, p));
  }

  lemma {:induction false} FaithfulI(e: Expansion, w: bv32, p: Parts)
    requires (e.MakeAddi? || e.MakeAddiw? || e.MakeAndi?) && RegsFit(p) && Imms12Fit(p)
    ensures Faithful(e, w, p)
  {
    ReadsBackI(MappingOf(e), if e.MakeAndi? then 0x7013 else 0x13, RegOf(e.rd, p), RegOf(e.rs1, p), ImmOf(e.imm, p));
  }

  lemma {:induction false} FaithfulJalr(e: Expansion, w: bv32, p: Parts)
    requires e.MakeJalr? && RegsFit(p)
    ensures Faithful(e, w, p)
  {
    ReadsBackI(JALR, 0x67, RegOf(e.rd, p), RegOf(e.rs1, p), 0);
  }

  lemma {:induction false} FaithfulLoad(e: Expansion, w: bv32, p: Parts)
    requires e.MakeLoad? && RegsFit(p) && Imms12Fit(p)
    ensures Faithful(e, w, p)
  {
    LowsFit();
    ReadsBackI(MappingOf(e), LowOfLoad(e.double, e.float), RegOf(e.rd, p), RegOf(e.rs1, p), ImmOf(e.imm, p));
  }

  lemma {:induction false} FaithfulStore(e: Expansion, w: bv32, p: Parts)
    requires e.MakeStore? && RegsFit(p) && Imms12Fit(p)
    ensures Faithful(e, w, p)
  {
    LowsFit();
    ReadsBackS(MappingOf(e), LowOfStore(e.double, e.float), RegOf(e.rs1, p), RegOf(e.rs2, p), ImmOf(e.imm, p));
  }

  lemma {:induction false} FaithfulShift(e: Expansion, w: bv32, p: Parts)
    requires e.MakeShift? && RegsFit(p) && p.uimm & 63 == p.uimm
    ensures Faithful(e, w, p)
  {
    LowsFit();
    ReadsBackShift(MappingOf(e), LowOfShift(e.shift), RegOf(e.reg, p), RegOf(e.reg, p), p.uimm);
  }

  lemma {:induction false} FaithfulBranch(e: Expansion, w: bv32, p: Parts)
    requires e.MakeBranch? && RegsFit(p) && IsBranchOffset(p.branch)
    ensures Faithful(e, w, p)
  {
    LowsFit();
    ReadsBackB(MappingOf(e), LowOfBranch(e.onEqual), RegOf(e.rs1, p), 0, p.branch);
  }

  lemma {:induction false} FaithfulLui(e: Expansion, w: bv32, p: Parts)
    requires e.MakeLui? && RegsFit(p) && p.lui & 0xffff_f000 == p.lui
    ensures Faithful(e, w, p)
  {
    ReadsBackU(LUI, 0x37, RegOf(e.rd, p), p.lui);
  }

  lemma {:induction false} FaithfulJal(e: Expansion, w: bv32, p: Parts)
    requires e.MakeJal? && RegsFit(p) && IsJumpOffset(p.jal)
    ensures Faithful(e, w, p)
  {
    ReadsBackJ(JAL, 0x6f, RegOf(e.rd, p), p.jal);
  }

  predicate HasImmediate12(e: Expansion) { e.MakeAddi? || e.MakeAddiw? || e.MakeAndi? || e.MakeLoad? || e.MakeStore? }

  lemma {:induction false} ReadsBack12(e: Expansion, w: bv32, p: Parts)
    requires RegsFit(p) && Imms12Fit(p) && HasImmediate12(e)
    ensures Faithful(e, w, p)
  {
    match e
    case MakeLoad(_, _, _, _, _) => FaithfulLoad(e, w, p);
    case MakeStore(_, _, _, _, _) => FaithfulStore(e, w, p);
    case _ => FaithfulI(e, w, p);
  }

  lemma {:induction false} ReadsBackOther(e: Expansion, w: bv32, p: Parts)
    requires RegsFit(p) && SizedRest(p) && !HasImmediate12(e)
    ensures Faithful(e, w, p)
  {
    match e
    case MakeR(_, _, _, _) => FaithfulR(e, w, p);
    case MakeJalr(_, _) => FaithfulJalr(e, w, p);
    case MakeShift(_, _) => FaithfulShift(e, w, p);
    case MakeBranch(_, _) => FaithfulBranch(e, w, p);
    case MakeLui(_) => FaithfulLui(e, w, p);
    case MakeJal(_) => FaithfulJal(e, w, p);
    case _ =>
  }

  /** Whatever the factory is called with, execution reads the same operands back out of the word. */
  lemma {:induction false} ReadsBack(e: Expansion, w: bv32)
    ensures Faithful(e, w, PartsOf(w))
  {
    var p := PartsOf(w);
    PartsAreSized(w);
    AllRegsFit(p);
    AllImms12Fit(p);
    if HasImmediate12(e) {
      ReadsBack12(e, w, p);
    } else {
      ReadsBackOther(e, w, p);
    }
  }

  // ---------------------------------------------------------------- the expansion has the listed operands

  /** ToBase on arguments. */
  function ToGiven(c: Rvc): Given {
    match c.op
    case Reserved => Given(UNDEF, X0, X0, X0, NoImm)
    case Ebreak => Given(EBREAK, X0, X0, X0, NoImm)
    case Addi4spn => Given(ImmOp(Add), c.x, X2, X0, c.imm)
    case Load(double, float) => Given(LoadOp(WidthOf(double), false, float), c.x, c.y, X0, c.imm)
    case Store(double, float) => Given(StoreOp(WidthOf(double), float), X0, c.y, c.x, c.imm)
    case Addi => Given(ImmOp(Add), c.x, c.x, X0, c.imm)
    case Addiw => Given(ImmOp(AddWord), c.x, c.x, X0, c.imm)
    case Li => Given(ImmOp(Add), c.x, X0, X0, c.imm)
    case Addi16sp => Given(ImmOp(Add), X2, X2, X0, c.imm)
    case Lui => Given(LUI, c.x, X0, X0, c.imm)
    case Shift(kind) => Given(ShiftOp(kind, false), c.x, c.x, X0, c.imm)
    case Andi => Given(ImmOp(And), c.x, c.x, X0, c.imm)
    case Combine(alu) => Given(RegOp(alu), c.x, c.x, c.y, NoImm)
    case Mv => Given(RegOp(Add), c.x, X0, c.y, NoImm)
    case J => Given(JAL, X0, X0, X0, c.imm)
    case Jal => Given(JAL, X1, X0, X0, c.imm)
    case Jr => Given(JALR, X0, c.x, X0, NoImm)
    case Jalr => Given(JALR, X1, c.x, X0, NoImm)
    case Beqz => Given(BranchOp(Eq), X0, c.x, X0, c.imm)
    case Bnez => Given(BranchOp(Ne), X0, c.x, X0, c.imm)
  }

  /** The two agree, however the arguments are read as numbers. */
  lemma {:induction false} ToGivenIsToBase(c: Rvc, num: Reg -> nat, sgn: Imm -> int)
    requires num(X0) == 0 && num(X1) == 1 && num(X2) == 2 && sgn(NoImm) == 0
    ensures var g := ToGiven(c);
            Base(g.mapping, num(g.rd), num(g.rs1), num(g.rs2), sgn(g.imm)) == ToBase(c.op, num(c.x), num(c.y), sgn(c.imm))
  {
  }

  /** The expansion carries the operands of c. */
  predicate Carries(e: Expansion, c: Rvc) { GivenTo(e) == ToGiven(c) }

  lemma {:induction false} CarriesLoads(p: Parts, arch: Arch)
    requires p.f3 < 4 && (p.format == 0 ==> p.addi4spn == 0)
    ensures Carries(Expand(p, DecodeQuadrant0(p, arch), arch), ListQuadrant0(p, arch))
  {
  }

  lemma {:induction false} CarriesStores(p: Parts, arch: Arch)
    requires 4 <= p.f3 <= 7
    ensures Carries(Expand(p, DecodeQuadrant0(p, arch), arch), ListQuadrant0(p, arch))
  {
  }

  lemma {:induction false} CarriesShiftOrAndi(p: Parts, arch: Arch)
    requires p.high < 3 && (p.uimm > 31 <==> p.uimm & 0x20 != 0)
    ensures Carries(Expand(p, DecodeAlu(p), arch), ListAlu(p, arch))
  {
  }

  lemma {:induction false} CarriesAlu(p: Parts, arch: Arch)
    requires p.high == 3 && p.low <= 3 && (arch == RV32 ==> p.b12 == 0 || p.low >= 2)
    ensures Carries(Expand(p, DecodeAlu(p), arch), ListAlu(p, arch))
  {
  }

  lemma {:induction false} CarriesAddiOrJal(p: Parts, arch: Arch)
    requires p.f3 < 2 && !(p.f3 == 0 && p.format == 1)
    ensures Carries(Expand(p, DecodeQuadrant1(p, arch), arch), ListQuadrant1(p, arch))
  {
  }

  lemma {:induction false} CarriesLiOrLui(p: Parts, arch: Arch)
    requires 2 <= p.f3 < 4
    ensures Carries(Expand(p, DecodeQuadrant1(p, arch), arch), ListQuadrant1(p, arch))
  {
  }

  lemma {:induction false} CarriesBranchOrJump(p: Parts, arch: Arch)
    requires 4 < p.f3 <= 7
    ensures Carries(Expand(p, DecodeQuadrant1(p, arch), arch), ListQuadrant1(p, arch))
  {
  }

  /** C.ADD into register zero: a hint, which the decoder takes for C.EBREAK. */
  predicate IsAddHint(p: Parts) { p.quadrant == 2 && p.f3 == 4 && p.b12 != 0 && p.rd == 0 && p.rs2 != 0 }

  lemma {:induction false} CarriesMoveOrJump(p: Parts, arch: Arch)
    requires p.f3 == 4 && p.b12 == 0
    ensures Carries(Expand(p, DecodeQuadrant2(p, arch), arch), ListQuadrant2(p, arch))
  {
  }

  lemma {:induction false} CarriesAddOrCall(p: Parts, arch: Arch)
    requires p.quadrant == 2 && p.f3 == 4 && p.b12 != 0 && !IsAddHint(p)
    ensures Carries(Expand(p, DecodeQuadrant2(p, arch), arch), ListQuadrant2(p, arch))
  {
  }

  lemma {:induction false} CarriesQuadrant2Rest(p: Parts, arch: Arch)
    requires p.f3 <= 7 && p.f3 != 4 && (p.uimm > 31 <==> p.uimm & 0x20 != 0)
    ensures Carries(Expand(p, DecodeQuadrant2(p, arch), arch), ListQuadrant2(p, arch))
  {
  }

  // ---------------------------------------------------------------- the main result

  lemma {:induction false} Constants()
    ensures Number(0) == 0 && Number(1) == 1 && Number(2) == 2 && Signed(0) == 0
  {
    assert (1 as bv32) >> 1 == 0 && (2 as bv32) >> 1 == 1;
    NarrowOfReg(0, HALF32);
  }

  lemma {:induction false} NumberIsDouble(x: bv32)
    requires x & 1 == 0
    ensures Number(x) == if x == 0 then 0 else 2 * Number(x >> 1)
  {
  }

  lemma {:induction false} OffsetIsEven(x: bv32)
    requires x & 1 == 0
    ensures Signed(x) % 2 == 0
  {
    NumberIsDouble(x);
    ParityKept(Number(x), HALF32);
  }

  predicate FitsArch(c: Rvc, arch: Arch) {
    (HasOffset(c.op) ==> c.imm == AJal || c.imm == ABranch) && (arch == RV32 ==> !IsRv64Op(c.op))
  }

  lemma {:induction false} ListFitsArch0(p: Parts, arch: Arch)
    ensures FitsArch(ListQuadrant0(p, arch), arch)
  {
  }

  lemma {:induction false} ListFitsArch1(p: Parts, arch: Arch)
    ensures FitsArch(ListQuadrant1(p, arch), arch)
  {
  }

  lemma {:induction false} ListFitsArch2(p: Parts, arch: Arch)
    ensures FitsArch(ListQuadrant2(p, arch), arch)
  {
  }

  lemma {:induction false} ListFitsArch(p: Parts, arch: Arch)
    ensures FitsArch(List(p, arch), arch)
  {
    ListFitsArch0(p, arch);
    ListFitsArch1(p, arch);
    ListFitsArch2(p, arch);
  }

  lemma {:induction false} ListedIsWellFormed(c: Rvc, p: Parts, arch: Arch)
    requires FitsArch(c, arch) && p.jal & 1 == 0 && p.branch & 1 == 0
    ensures WellFormed(c.op, Signed(ImmOf(c.imm, p)), arch)
  {
    OffsetIsEven(p.jal);
    OffsetIsEven(p.branch);
  }

  /** An expansion with the operands of c does what c means. */
  lemma {:induction false} CarriedMeaning(e: Expansion, c: Rvc, p: Parts, arch: Arch, s: State)
    requires Carries(e, c) && Valid(s, arch) && WellFormed(c.op, Signed(ImmOf(c.imm, p)), arch)
    ensures Run(Numeric(Evaluated(GivenTo(e), p)), arch, s) == MeaningOf(c, p, arch, s)
  {
    var num := (r: Reg) => Number(RegOf(r, p));
    var sgn := (i: Imm) => Signed(ImmOf(i, p));
    Constants();
    ToGivenIsToBase(c, num, sgn);
    BaseMeaning(c.op, num(c.x), num(c.y), sgn(c.imm), arch, s);
  }

  /** The decoder's result carries the listed instruction, but for C.NOP, the hint, and the word operations on RV32. */
  predicate IsNop(p: Parts) { p.quadrant == 1 && p.f3 == 0 && p.format == 1 }
  predicate IsWordOp(p: Parts) {
    p.quadrant == 1 && p.f3 == 4 && (DecodeAlu(p) == C_ALU(SubWord) || DecodeAlu(p) == C_ALU(AddWord))
  }

  lemma {:induction false} ExpansionCarries(p: Parts, arch: Arch)
    requires Selected(p) && p.quadrant != 3 && !IsNop(p) && !IsAddHint(p) && !(arch == RV32 && IsWordOp(p))
    ensures Carries(Expand(p, DecodeCompressed(p, arch), arch), List(p, arch))
  {
    if p.quadrant == 0 {
      if p.f3 < 4 {
        CarriesLoads(p, arch);
      } else {
        CarriesStores(p, arch);
      }
    } else if p.quadrant == 1 {
      if p.f3 < 2 {
        CarriesAddiOrJal(p, arch);
      } else if p.f3 < 4 {
        CarriesLiOrLui(p, arch);
      } else if p.f3 == 4 && p.high < 3 {
        CarriesShiftOrAndi(p, arch);
      } else if p.f3 == 4 {
        CarriesAlu(p, arch);
      } else {
        CarriesBranchOrJump(p, arch);
      }
    } else if p.f3 != 4 {
      CarriesQuadrant2Rest(p, arch);
    } else if p.b12 == 0 {
      CarriesMoveOrJump(p, arch);
    } else {
      CarriesAddOrCall(p, arch);
    }
  }

  /** Execution and meaning, over the parts of an instruction. */
  function Executed(p: Parts, arch: Arch, s: State): Effect {
    Run(Numeric(Evaluated(GivenTo(Expand(p, DecodeCompressed(p, arch), arch)), p)), arch, s)
  }

  lemma {:induction false} NopDecodes(p: Parts, arch: Arch)
    requires IsNop(p)
    ensures Expand(p, DecodeCompressed(p, arch), arch) == MakeR(Add, X0, X0, X0)
    ensures List(p, arch) == Rvc(Addi, XRd, X0, AImm)
  {
  }

  lemma {:induction false} NopMeaning(p: Parts, arch: Arch, s: State)
    requires IsNop(p) && Valid(s, arch) && p.rd == 0 && p.imm == 0
    ensures Executed(p, arch, s) == MeaningOf(List(p, arch), p, arch, s)
  {
    NopDecodes(p, arch);
    Constants();
    assert Evaluated(GivenTo(MakeR(Add, X0, X0, X0)), p) == Fields(RegOp(Add), 0, 0, 0, 0);
    NopEffect(arch, s);
  }

  lemma {:induction false} NopEffect(arch: Arch, s: State)
    requires Valid(s, arch)
    ensures Run(Base(RegOp(Add), 0, 0, 0, 0), arch, s) == Meaning(Addi, 0, 0, 0, arch, s)
  {
    SettleIsPut(s.regs, 0, Fit(arch, 0));
  }

  lemma {:induction false} WordOpDecodes(p: Parts)
    requires IsWordOp(p) && p.low <= 3 && p.high <= 3
    ensures var e := Expand(p, DecodeCompressed(p, RV32), RV32); e.MakeR? && (e.alu == SubWord || e.alu == AddWord)
    ensures List(p, RV32) == NOTHING
  {
  }

  /** The word operations are reserved on RV32; they are decoded, but not executed. */
  lemma {:induction false} WordOpMeaning(p: Parts, s: State)
    requires IsWordOp(p) && p.low <= 3 && p.high <= 3
    ensures Executed(p, RV32, s) == MeaningOf(List(p, RV32), p, RV32, s) == Illegal
  {
    WordOpDecodes(p);
  }

  lemma {:induction false} HintDecodes(p: Parts, arch: Arch)
    requires IsAddHint(p)
    ensures Expand(p, DecodeCompressed(p, arch), arch) == MakeEbreak
    ensures List(p, arch) == Rvc(Combine(Add), XRd, XRs2, NoImm)
  {
  }

  /** The hint stops the simulator at a breakpoint; its meaning is to go on to the next instruction. */
  lemma {:induction false} HintIsBreakpoint(p: Parts, arch: Arch, s: State)
    requires IsAddHint(p)
    ensures Executed(p, arch, s) == Breakpoint(Address(arch, s.pc + 2))
    ensures MeaningOf(List(p, arch), p, arch, s) == Done(State(Address(arch, s.pc + 2), s.regs))
  {
    HintDecodes(p, arch);
    Constants();
  }

  lemma {:induction false} PartsMeaning(p: Parts, arch: Arch, s: State)
    requires Selected(p) && p.quadrant != 3 && p.jal & 1 == 0 && p.branch & 1 == 0 && Valid(s, arch)
    ensures Executed(p, arch, s) == MeaningOf(List(p, arch), p, arch, s) <==> !IsAddHint(p)
  {
    if IsAddHint(p) {
      HintIsBreakpoint(p, arch, s);
    } else if IsNop(p) {
      NopMeaning(p, arch, s);
    } else if arch == RV32 && IsWordOp(p) {
      WordOpMeaning(p, s);
    } else {
      var c := List(p, arch);
      ExpansionCarries(p, arch);
      ListFitsArch(p, arch);
      ListedIsWellFormed(c, p, arch);
      CarriedMeaning(Expand(p, DecodeCompressed(p, arch), arch), c, p, arch, s);
    }
  }

  lemma {:induction false} ExecuteIsExecuted(w: bv32, arch: Arch, s: State)
    ensures Execute(DecodeAndExpand(w, arch), arch, s) == Executed(PartsOf(w), arch, s)
  {
    ReadsBack(Expand(PartsOf(w), DecodeCompressed(PartsOf(w), arch), arch), w);
  }

  lemma {:induction false} OffsetPartsAreEven(w: bv32)
    ensures PartsOf(w).jal & 1 == 0 && PartsOf(w).branch & 1 == 0
  {
    JumpFits(w);
    BranchFits(w);
  }

  /** For every compressed instruction, both architectures and every register state: executing the expanded word has the
      effect that the ISA gives the instruction, if and only if the instruction is not C.ADD into register zero. */
  lemma {:induction false} ExpansionMeans(w: bv32, arch: Arch, s: State)
    requires Quadrant(w) != 3 && Valid(s, arch)
    ensures Execute(DecodeAndExpand(w, arch), arch, s) == MeaningOf(Listed(w, arch), ListedParts(w), arch, s)
            <==> !IsAddHint(ListedParts(w))
  {
    ExecuteIsExecuted(w, arch, s);
    PartsAreListed(w);
    PartsAreSized(w);
    OffsetPartsAreEven(w);
    PartsMeaning(PartsOf(w), arch, s);
  }

  /** C.ADD x0, x1 is such an instruction. */
  lemma {:induction false} HintExample()
    ensures IsAddHint(ListedParts(0x9006))
  {
    assert ListedParts(0x9006).rs2 == 1;
  }

  /** The instruction that decoding overwrites. */
  class Instruction {
    var instr: bv32

    constructor (w: bv32)
      ensures instr == w
    {
      instr := w;
    }

    /** Replaces a compressed instruction by its expansion; executing the result means what the instruction meant. */
    method DecodeAndExpandCompressed(arch: Arch) returns (mapping: Mapping)
      requires Quadrant(instr) != 3
      modifies this
      ensures Expanded(instr, mapping) == DecodeAndExpand(old(instr), arch)
      ensures forall s | Valid(s, arch) && !IsAddHint(ListedParts(old(instr))) ::
                Execute(Expanded(instr, mapping), arch, s)
                == MeaningOf(Listed(old(instr), arch), ListedParts(old(instr)), arch, s)
    {
      var w := instr;
      var p := PartsOf(w);
      var e := Expand(p, DecodeCompressed(p, arch), arch);
      instr := Make(e, w, p);
      mapping := MappingOf(e);
      forall s | Valid(s, arch)
        ensures Execute(Expanded(instr, mapping), arch, s) == MeaningOf(Listed(w, arch), ListedParts(w), arch, s)
                <==> !IsAddHint(ListedParts(w))
      {
        ExpansionMeans(w, arch, s);
      }
    }
  }
}
