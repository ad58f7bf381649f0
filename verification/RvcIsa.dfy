/** Chapter 16 of the Unprivileged ISA 20191213, as the reference: the compressed instructions with their operands, what
    each does, and how the operands lie in the 16 bits. Register contents are signed integers of XLEN bits. */
module RvcIsa {
  import opened Instr
  import opened MulDiv
  import opened Bits

  // ---------------------------------------------------------------- where the operand bits lie

  /** The bit "to" of the operand is the bit "from" of the instruction. A "to" of several bits is a sign extension. */
  function Pick(w: bv32, from: bv32, to: bv32): bv32 { if w & from != 0 then to else 0 }

  function Field5At7(w: bv32): bv32 { (w >> 7) & 31 }
  function Field5At2(w: bv32): bv32 { (w >> 2) & 31 }
  function PopularAt7(w: bv32): bv32 { 8 + ((w >> 7) & 7) }
  function PopularAt2(w: bv32): bv32 { 8 + ((w >> 2) & 7) }

  /** imm[5], then imm[4:0] */
  function Imm6(w: bv32): bv32 {
    Pick(w, 0x1000, 0xffff_ffe0) | Pick(w, 0x40, 0x10) | Pick(w, 0x20, 8) | Pick(w, 0x10, 4) | Pick(w, 8, 2) | Pick(w, 4, 1)
  }
  function Uimm6(w: bv32): bv32 {
    Pick(w, 0x1000, 0x20) | Pick(w, 0x40, 0x10) | Pick(w, 0x20, 8) | Pick(w, 0x10, 4) | Pick(w, 8, 2) | Pick(w, 4, 1)
  }
  /** nzuimm[5:4|9:6|2|3] */
  function ImmAddi4spn(w: bv32): bv32 {
    Pick(w, 0x1000, 0x20) | Pick(w, 0x800, 0x10) | Pick(w, 0x400, 0x200) | Pick(w, 0x200, 0x100) | Pick(w, 0x100, 0x80)
    | Pick(w, 0x80, 0x40) | Pick(w, 0x40, 4) | Pick(w, 0x20, 8)
  }
  /** uimm[5:3], then uimm[2|6] */
  function ImmWord(w: bv32): bv32 {
    Pick(w, 0x1000, 0x20) | Pick(w, 0x800, 0x10) | Pick(w, 0x400, 8) | Pick(w, 0x40, 4) | Pick(w, 0x20, 0x40)
  }
  /** uimm[5:3], then uimm[7:6] */
  function ImmDouble(w: bv32): bv32 {
    Pick(w, 0x1000, 0x20) | Pick(w, 0x800, 0x10) | Pick(w, 0x400, 8) | Pick(w, 0x40, 0x80) | Pick(w, 0x20, 0x40)
  }
  /** imm[11|4|9:8|10|6|7|3:1|5] */
  function ImmJump(w: bv32): bv32 {
    Pick(w, 0x1000, 0xffff_f800) | Pick(w, 0x800, 0x10) | Pick(w, 0x400, 0x200) | Pick(w, 0x200, 0x100)
    | Pick(w, 0x100, 0x400) | Pick(w, 0x80, 0x40) | Pick(w, 0x40, 0x80) | Pick(w, 0x20, 8) | Pick(w, 0x10, 4)
    | Pick(w, 8, 2) | Pick(w, 4, 0x20)
  }
  /** nzimm[9], then nzimm[4|6|8:7|5] */
  function ImmAddi16sp(w: bv32): bv32 {
    Pick(w, 0x1000, 0xffff_fe00) | Pick(w, 0x40, 0x10) | Pick(w, 0x20, 0x40) | Pick(w, 0x10, 0x100) | Pick(w, 8, 0x80)
    | Pick(w, 4, 0x20)
  }
  /** nzimm[17], then nzimm[16:12] */
  function ImmLui(w: bv32): bv32 {
    Pick(w, 0x1000, 0xfffe_0000) | Pick(w, 0x40, 0x1_0000) | Pick(w, 0x20, 0x8000) | Pick(w, 0x10, 0x4000)
    | Pick(w, 8, 0x2000) | Pick(w, 4, 0x1000)
  }
  /** imm[8|4:3], then imm[7:6|2:1|5] */
  function ImmBranch(w: bv32): bv32 {
    Pick(w, 0x1000, 0xffff_ff00) | Pick(w, 0x800, 0x10) | Pick(w, 0x400, 8) | Pick(w, 0x40, 0x80) | Pick(w, 0x20, 0x40)
    | Pick(w, 0x10, 4) | Pick(w, 8, 2) | Pick(w, 4, 0x20)
  }
  /** uimm[5], then uimm[4:2|7:6] */
  function ImmLwsp(w: bv32): bv32 {
    Pick(w, 0x1000, 0x20) | Pick(w, 0x40, 0x10) | Pick(w, 0x20, 8) | Pick(w, 0x10, 4) | Pick(w, 8, 0x80) | Pick(w, 4, 0x40)
  }
  /** uimm[5], then uimm[4:3|8:6] */
  function ImmLdsp(w: bv32): bv32 {
    Pick(w, 0x1000, 0x20) | Pick(w, 0x40, 0x10) | Pick(w, 0x20, 8) | Pick(w, 0x10, 0x100) | Pick(w, 8, 0x80)
    | Pick(w, 4, 0x40)
  }
  /** uimm[5:2|7:6] */
  function ImmSwsp(w: bv32): bv32 {
    Pick(w, 0x1000, 0x20) | Pick(w, 0x800, 0x10) | Pick(w, 0x400, 8) | Pick(w, 0x200, 4) | Pick(w, 0x100, 0x80)
    | Pick(w, 0x80, 0x40)
  }
  /** uimm[5:3|8:6] */
  function ImmSdsp(w: bv32): bv32 {
    Pick(w, 0x1000, 0x20) | Pick(w, 0x800, 0x10) | Pick(w, 0x400, 8) | Pick(w, 0x200, 0x100) | Pick(w, 0x100, 0x80)
    | Pick(w, 0x80, 0x40)
  }

  // ---------------------------------------------------------------- the base formats

  /** imm[11:0] in bits 31 to 20 (section 2.3 of the Unprivileged ISA 20191213) */
  function BaseImmI(w: bv32): bv32 {
    Pick(w, 0x8000_0000, 0xffff_f800) | Pick(w, 0x4000_0000, 0x400) | Pick(w, 0x2000_0000, 0x200)
    | Pick(w, 0x1000_0000, 0x100) | Pick(w, 0x800_0000, 0x80) | Pick(w, 0x400_0000, 0x40) | Pick(w, 0x200_0000, 0x20)
    | Pick(w, 0x100_0000, 0x10) | Pick(w, 0x80_0000, 0x8) | Pick(w, 0x40_0000, 0x4) | Pick(w, 0x20_0000, 0x2)
    | Pick(w, 0x10_0000, 0x1)
  }
  /** imm[11:5] in bits 31 to 25, imm[4:0] in bits 11 to 7 */
  function BaseImmS(w: bv32): bv32 {
    Pick(w, 0x8000_0000, 0xffff_f800) | Pick(w, 0x4000_0000, 0x400) | Pick(w, 0x2000_0000, 0x200)
    | Pick(w, 0x1000_0000, 0x100) | Pick(w, 0x800_0000, 0x80) | Pick(w, 0x400_0000, 0x40) | Pick(w, 0x200_0000, 0x20)
    | Pick(w, 0x800, 0x10) | Pick(w, 0x400, 0x8) | Pick(w, 0x200, 0x4) | Pick(w, 0x100, 0x2) | Pick(w, 0x80, 0x1)
  }
  /** imm[12|10:5] in bits 31 to 25, imm[4:1|11] in bits 11 to 7 */
  function BaseImmB(w: bv32): bv32 {
    Pick(w, 0x8000_0000, 0xffff_f000) | Pick(w, 0x80, 0x800) | Pick(w, 0x4000_0000, 0x400)
    | Pick(w, 0x2000_0000, 0x200) | Pick(w, 0x1000_0000, 0x100) | Pick(w, 0x800_0000, 0x80)
    | Pick(w, 0x400_0000, 0x40) | Pick(w, 0x200_0000, 0x20) | Pick(w, 0x800, 0x10) | Pick(w, 0x400, 0x8)
    | Pick(w, 0x200, 0x4) | Pick(w, 0x100, 0x2)
  }
  /** imm[20|10:1|11|19:12] in bits 31 to 12 */
  function BaseImmJ(w: bv32): bv32 {
    Pick(w, 0x8000_0000, 0xfff0_0000) | Pick(w, 0x8_0000, 0x8_0000) | Pick(w, 0x4_0000, 0x4_0000)
    | Pick(w, 0x2_0000, 0x2_0000) | Pick(w, 0x1_0000, 0x1_0000) | Pick(w, 0x8000, 0x8000) | Pick(w, 0x4000, 0x4000)
    | Pick(w, 0x2000, 0x2000) | Pick(w, 0x1000, 0x1000) | Pick(w, 0x10_0000, 0x800) | Pick(w, 0x4000_0000, 0x400)
    | Pick(w, 0x2000_0000, 0x200) | Pick(w, 0x1000_0000, 0x100) | Pick(w, 0x800_0000, 0x80)
    | Pick(w, 0x400_0000, 0x40) | Pick(w, 0x200_0000, 0x20) | Pick(w, 0x100_0000, 0x10) | Pick(w, 0x80_0000, 0x8)
    | Pick(w, 0x40_0000, 0x4) | Pick(w, 0x20_0000, 0x2)
  }

  // ---------------------------------------------------------------- the instructions

  datatype RvcOp =
    | Reserved | Ebreak
    | Addi4spn | Addi | Addiw | Li | Addi16sp | Lui | Andi
    | Load(double: bool, float: bool)
    | Store(double: bool, float: bool)
    | Shift(kind: ShiftKind)
    | Combine(alu: Alu)
    | Mv | J | Jal | Jr | Jalr | Beqz | Bnez

  /** x is the first register operand: the destination, or the register that is stored, tested or jumped through. y is the
      second: the base address or the second source. imm is the immediate or the shift amount. */
  datatype Rvc = Rvc(op: RvcOp, x: Reg, y: Reg, imm: Imm)

  const NOTHING := Rvc(Reserved, X0, X0, NoImm)

  function ListQuadrant0(p: Parts, arch: Arch): Rvc {
    var f, x, y := p.f3, XRs2Small, XRdSmall;
    if f == 0 then if p.addi4spn == 0 then NOTHING else Rvc(Addi4spn, x, X0, AAddi4spn)
    else if f == 1 then Rvc(Load(true, true), x, y, ALd)
    else if f == 2 then Rvc(Load(false, false), x, y, ALw)
    else if f == 3 then
      if arch == RV32 then Rvc(Load(false, true), x, y, ALw) else Rvc(Load(true, false), x, y, ALd)
    else if f == 4 then NOTHING
    else if f == 5 then Rvc(Store(true, true), x, y, ALd)
    else if f == 6 then Rvc(Store(false, false), x, y, ALw)
    else if arch == RV32 then Rvc(Store(false, true), x, y, ALw)
    else Rvc(Store(true, false), x, y, ALd)
  }

  /** A shift by 32 or more does not exist on RV32. */
  function ShiftOrReserved(kind: ShiftKind, rd: Reg, p: Parts, arch: Arch): Rvc {
    if arch == RV32 && p.uimm & 0x20 != 0 then NOTHING else Rvc(Shift(kind), rd, X0, AUimm)
  }

  function ListAlu(p: Parts, arch: Arch): Rvc {
    var high, low, x, y := p.high, p.low, XRdSmall, XRs2Small;
    if high == 0 then ShiftOrReserved(RightLogical, x, p, arch)
    else if high == 1 then ShiftOrReserved(RightArithmetic, x, p, arch)
    else if high == 2 then Rvc(Andi, x, X0, AImm)
    else if p.b12 == 0 then
      Rvc(Combine(if low == 0 then Sub else if low == 1 then Xor else if low == 2 then Or else And), x, y, NoImm)
    else if arch == RV32 || low >= 2 then NOTHING
    else Rvc(Combine(if low == 0 then SubWord else AddWord), x, y, NoImm)
  }

  function ListQuadrant1(p: Parts, arch: Arch): Rvc {
    var f, rd := p.f3, p.rd;
    if f == 0 then Rvc(Addi, XRd, X0, AImm)
    else if f == 1 then
      if arch == RV32 then Rvc(Jal, X0, X0, AJal) else if rd == 0 then NOTHING else Rvc(Addiw, XRd, X0, AImm)
    else if f == 2 then Rvc(Li, XRd, X0, AImm)
    else if f == 3 then
      if rd == 2 then if p.addi16sp == 0 then NOTHING else Rvc(Addi16sp, X0, X0, AAddi16sp)
      else if p.lui == 0 then NOTHING else Rvc(Lui, XRd, X0, ALui)
    else if f == 4 then ListAlu(p, arch)
    else if f == 5 then Rvc(J, X0, X0, AJal)
    else if f == 6 then Rvc(Beqz, XRdSmall, X0, ABranch)
    else Rvc(Bnez, XRdSmall, X0, ABranch)
  }

  function ListQuadrant2(p: Parts, arch: Arch): Rvc {
    var f, rd, rs2 := p.f3, p.rd, p.rs2;
    if f == 0 then ShiftOrReserved(LeftLogical, XRd, p, arch)
    else if f == 1 then Rvc(Load(true, true), XRd, X2, ALdsp)
    else if f == 2 then if rd == 0 then NOTHING else Rvc(Load(false, false), XRd, X2, ALwsp)
    else if f == 3 then
      if arch == RV32 then Rvc(Load(false, true), XRd, X2, ALwsp)
      else if rd == 0 then NOTHING else Rvc(Load(true, false), XRd, X2, ALdsp)
    else if f == 4 then
      if p.b12 == 0 then
        if rs2 != 0 then Rvc(Mv, XRd, XRs2, NoImm) else if rd == 0 then NOTHING else Rvc(Jr, XRd, X0, NoImm)
      else
        if rs2 != 0 then Rvc(Combine(Add), XRd, XRs2, NoImm)
        else if rd == 0 then Rvc(Ebreak, X0, X0, NoImm)
        else Rvc(Jalr, XRd, X0, NoImm)
    else if f == 5 then Rvc(Store(true, true), XRs2, X2, ASdsp)
    else if f == 6 then Rvc(Store(false, false), XRs2, X2, ASwsp)
    else if arch == RV32 then Rvc(Store(false, true), XRs2, X2, ASwsp)
    else Rvc(Store(true, false), XRs2, X2, ASdsp)
  }

  /** The table of the three quadrants of compressed instructions. */
  function List(p: Parts, arch: Arch): Rvc {
    if p.quadrant == 0 then ListQuadrant0(p, arch)
    else if p.quadrant == 1 then ListQuadrant1(p, arch)
    else if p.quadrant == 2 then ListQuadrant2(p, arch)
    else NOTHING
  }

  /** The parts of an instruction as the formats of the ISA lay them out. */
  function ListedParts(w: bv32): Parts {
    Parts(
      w & 3, w & 0xffff, (w >> 13) & 7, (w >> 12) & 1, (w >> 10) & 3, (w >> 5) & 3,
      Field5At7(w), Field5At2(w), PopularAt7(w), PopularAt2(w),
      Imm6(w), Uimm6(w), ImmAddi4spn(w), ImmWord(w), ImmDouble(w), ImmJump(w), ImmAddi16sp(w), ImmLui(w), ImmBranch(w),
      ImmLwsp(w), ImmSwsp(w), ImmLdsp(w), ImmSdsp(w))
  }

  /** The instruction that the 16 low bits of w list. */
  function Listed(w: bv32, arch: Arch): Rvc { List(ListedParts(w), arch) }

  // ---------------------------------------------------------------- values

  /** The bits of a word as a number. */
  function Number(x: bv32): nat
    decreases x
  {
    if x == 0 then 0 else (if x & 1 != 0 then 1 else 0) + 2 * Number(x >> 1)
  }

  /** A word as a signed immediate. */
  function Signed(x: bv32): int { Narrow(Number(x), HALF32) }

  function Half(arch: Arch): (h: int)
    ensures h > 0 && h % 2 == 0
  {
    if arch == RV32 then HALF32 else HALF64
  }

  function Xlen(arch: Arch): nat { if arch == RV32 then 32 else 64 }

  /** A register value of the given width. */
  function Fit(arch: Arch, x: int): int { Narrow(x, Half(arch)) }

  /** An address of the given width. */
  function Address(arch: Arch, x: int): nat { Unsigned(x, Half(arch)) }

  /** The n low bits of x and y combined bit by bit. */
  function Bitwise(alu: Alu, x: int, y: int, n: nat): nat
    decreases n
  {
    if n == 0 then 0
    else
      var a, b := x % 2 == 1, y % 2 == 1;
      var bit := if alu == And then a && b else if alu == Or then a || b else a != b;
      (if bit then 1 else 0) + 2 * Bitwise(alu, x / 2, y / 2, n - 1)
  }

  function Compute(arch: Arch, alu: Alu, x: int, y: int): int {
    match alu
    case Add => Fit(arch, x + y)
    case Sub => Fit(arch, x - y)
    case AddWord => Narrow(x + y, HALF32)
    case SubWord => Narrow(x - y, HALF32)
    case Slt => if x < y then 1 else 0
    case Sltu => if Unsigned(x, Half(arch)) < Unsigned(y, Half(arch)) then 1 else 0
    case _ => Fit(arch, Bitwise(alu, x, y, Xlen(arch)))
  }

  function ShiftBy(arch: Arch, kind: ShiftKind, x: int, amount: int): int {
    var n: nat := if amount < 0 then 0 else amount;
    match kind
    case LeftLogical => Fit(arch, x * Pow2(n))
    case RightLogical => Fit(arch, Address(arch, x) / Pow2(n))
    case RightArithmetic => Fit(arch, x / Pow2(n))
  }

  // ---------------------------------------------------------------- what the instructions do

  type Regs = map<nat, int>

  datatype State = State(pc: nat, regs: Regs)

  /** What an instruction does. Memory accesses are named with their operands; the access itself is the memory's. */
  datatype Effect =
    | Done(next: State)
    | Loads(width: Width, unsigned: bool, float: bool, rd: nat, address: nat, pc: nat)
    | Stores(width: Width, address: nat, value: int, pc: nat)
    | StoresFloat(width: Width, address: nat, src: nat, pc: nat)
    | Misaligned(target: nat)
    | Illegal
    | Breakpoint(pc: nat)
    | Unmodelled

  function Get(s: State, r: nat): int { if r in s.regs then s.regs[r] else 0 }

  predicate Valid(s: State, arch: Arch) {
    && 0 in s.regs && s.regs[0] == 0
    && (forall r | r in s.regs :: Fit(arch, s.regs[r]) == s.regs[r])
    && s.pc % 2 == 0
  }

  function Put(regs: Regs, rd: nat, v: int): Regs { if rd == 0 then regs else regs[rd := v] }

  function Even(x: nat): nat { x - x % 2 }

  /** The meaning of each compressed instruction on numeric operands, in its own terms. */
  function Meaning(op: RvcOp, x: nat, y: nat, imm: int, arch: Arch, s: State): Effect {
    var next := Address(arch, s.pc + 2);
    match op
    case Reserved => Illegal
    case Ebreak => Breakpoint(next)
    case Addi4spn => Done(State(next, Put(s.regs, x, Fit(arch, Get(s, 2) + imm))))
    case Load(double, float) => Loads(if double then Double else Word, false, float, x, Address(arch, Get(s, y) + imm), next)
    case Store(double, float) =>
      var address := Address(arch, Get(s, y) + imm);
      var width := if double then Double else Word;
      if float then StoresFloat(width, address, x, next) else Stores(width, address, Get(s, x), next)
    case Addi => Done(State(next, Put(s.regs, x, Fit(arch, Get(s, x) + imm))))
    case Addiw => Done(State(next, Put(s.regs, x, Narrow(Get(s, x) + imm, HALF32))))
    case Li => Done(State(next, Put(s.regs, x, imm)))
    case Addi16sp => Done(State(next, Put(s.regs, 2, Fit(arch, Get(s, 2) + imm))))
    case Lui => Done(State(next, Put(s.regs, x, imm)))
    case Shift(kind) => Done(State(next, Put(s.regs, x, ShiftBy(arch, kind, Get(s, x), imm))))
    case Andi => Done(State(next, Put(s.regs, x, Compute(arch, And, Get(s, x), imm))))
    case Combine(alu) => Done(State(next, Put(s.regs, x, Compute(arch, alu, Get(s, x), Get(s, y)))))
    case Mv => Done(State(next, Put(s.regs, x, Get(s, y))))
    case J => Done(State(Address(arch, s.pc + imm), s.regs))
    case Jal => Done(State(Address(arch, s.pc + imm), Put(s.regs, 1, Fit(arch, s.pc + 2))))
    case Jr => Done(State(Even(Address(arch, Get(s, x))), s.regs))
    case Jalr => Done(State(Even(Address(arch, Get(s, x))), Put(s.regs, 1, Fit(arch, s.pc + 2))))
    case Beqz => Done(State(if Get(s, x) == 0 then Address(arch, s.pc + imm) else next, s.regs))
    case Bnez => Done(State(if Get(s, x) != 0 then Address(arch, s.pc + imm) else next, s.regs))
  }

  /** The meaning of a listed instruction whose parts are p. */
  function MeaningOf(c: Rvc, p: Parts, arch: Arch, s: State): Effect {
    Meaning(c.op, Number(RegOf(c.x, p)), Number(RegOf(c.y, p)), Signed(ImmOf(c.imm, p)), arch, s)
  }
}
