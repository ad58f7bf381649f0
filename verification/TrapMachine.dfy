/**
 Traps, interrupts and their handlers on an RV32 hart: delegation, trap entry, xRET, the CSR writes that steer them,
 and one step of the instruction loop (run_step). A register whose bits are independent flags is the set of the
 positions that are set.
 */
module TrapMachine {
  import opened Bits
  import opened Wrappers

  const USER: nat := 0
  const SUPERVISOR: nat := 1
  const MACHINE: nat := 3

  const MIE_MASK: set<nat> := {0, 1, 3, 4, 5, 7, 8, 9, 11}
  const SIE_MASK: set<nat> := {0, 1, 4, 5, 8, 9}
  const UIE_MASK: set<nat> := {0, 4, 8}
  const MIP_WRITE_MASK: set<nat> := {0, 1, 4, 5, 8, 9}
  const SIP_MASK: set<nat> := {0, 1}
  const UIP_MASK: set<nat> := {0}
  const MEDELEG_MASK: set<nat> := {0, 1, 2, 3, 4, 5, 6, 7, 8, 9, 11, 12, 13, 15}
  const SEDELEG_MASK: set<nat> := {0, 1, 2, 3, 4, 5, 6, 7, 8, 12, 13, 15}

  datatype Isa = Isa(hasC: bool, hasS: bool, hasU: bool)

  datatype Status = Status(uie: bool, sie: bool, mie: bool, upie: bool, spie: bool, mpie: bool, spp: nat, mpp: nat)

  datatype Tvec = Tvec(base: nat, mode: nat)

  datatype Cause = Cause(interrupt: bool, code: nat)

  datatype Csrs = Csrs(
    mstatus: Status,
    mie: set<nat>, mip: set<nat>,
    mideleg: set<nat>, sideleg: set<nat>, medeleg: set<nat>, sedeleg: set<nat>,
    mtvec: Tvec, stvec: Tvec, utvec: Tvec,
    mepc: nat, sepc: nat, uepc: nat,
    mcause: Cause, scause: Cause, ucause: Cause)

  datatype Core = Core(isa: Isa, x: seq<int>, pc: nat, lastPc: nat, prv: nat, csrs: Csrs)

  predicate IsLevel(l: nat) { l in {USER, SUPERVISOR, MACHINE} }

  /** pc_alignment_mask: even with the C extension, else a multiple of four. */
  predicate Aligned(isa: Isa, a: int) { if isa.hasC then a % 2 == 0 else a % 4 == 0 }

  // ---------------------------------------------------------------- choosing an interrupt

  datatype Pending = Pending(level: nat, bits: set<nat>)

  function ComputePending(c: Core): Option<Pending> {
    var s := c.csrs;
    var pending := s.mie * s.mip;
    var m := pending - s.mideleg;
    var d := pending * s.mideleg;
    if m != {} && (c.prv < MACHINE || (c.prv == MACHINE && s.mstatus.mie)) then Some(Pending(MACHINE, m))
    else if d - s.sideleg != {} && (c.prv < SUPERVISOR || (c.prv == SUPERVISOR && s.mstatus.sie)) then
      Some(Pending(SUPERVISOR, d - s.sideleg))
    else if d * s.sideleg != {} && c.prv == USER && s.mstatus.uie then Some(Pending(USER, d * s.sideleg))
    else None
  }

  /** The interrupt taken first: external before software before timer, the more privileged before the less;
      None stands for the throw "some pending interrupt must be available here". */
  function PickInterrupt(bits: set<nat>): Option<nat> {
    if 11 in bits then Some(11) else if 3 in bits then Some(3) else if 7 in bits then Some(7)
    else if 9 in bits then Some(9) else if 1 in bits then Some(1) else if 5 in bits then Some(5)
    else if 8 in bits then Some(8) else if 0 in bits then Some(0) else if 4 in bits then Some(4)
    else None
  }

  /** Position in the priority order of section 3.1.9 of the privileged architecture. */
  function Rank(code: nat): nat {
    (if code % 4 == 3 then 0 else if code % 4 == 1 then 3 else 6) + (if code >= 8 then 0 else if code < 4 then 1 else 2)
  }

  // ---------------------------------------------------------------- trap entry and return

  function SetCause(c: Core, level: nat, cause: Cause): Core {
    if level == MACHINE then c.(csrs := c.csrs.(mcause := cause))
    else if level == SUPERVISOR then c.(csrs := c.csrs.(scause := cause))
    else c.(csrs := c.csrs.(ucause := cause))
  }

  /** The level that handles a synchronous trap. */
  function TrapLevel(c: Core, reason: nat): nat {
    if c.prv == MACHINE || reason !in c.csrs.medeleg then MACHINE
    else if c.prv == SUPERVISOR || reason !in c.csrs.sedeleg then SUPERVISOR
    else USER
  }

  function PrepareTrap(c: Core, reason: nat): Core {
    SetCause(c.(pc := c.lastPc), TrapLevel(c, reason), Cause(false, reason))
  }

  function HandlerPc(tvec: Tvec, cause: Cause): nat {
    (tvec.base + (if cause.interrupt && tvec.mode == 1 then 4 * cause.code else 0)) % TWO32
  }

  function EnterHandler(c: Core, level: nat): Core {
    var s := c.csrs;
    var st := s.mstatus;
    if level == MACHINE then
      c.(prv := level, pc := HandlerPc(s.mtvec, s.mcause),
         csrs := s.(mepc := c.pc, mstatus := st.(mpie := st.mie, mie := false, mpp := c.prv)))
    else if level == SUPERVISOR then
      c.(prv := level, pc := HandlerPc(s.stvec, s.scause),
         csrs := s.(sepc := c.pc, mstatus := st.(spie := st.sie, sie := false, spp := c.prv)))
    else
      c.(prv := level, pc := HandlerPc(s.utvec, s.ucause),
         csrs := s.(uepc := c.pc, mstatus := st.(upie := st.uie, uie := false)))
  }

  function ReturnFromHandler(c: Core, level: nat): Core {
    var s := c.csrs;
    var st := s.mstatus;
    if level == MACHINE then
      c.(prv := st.mpp, pc := s.mepc,
         csrs := s.(mstatus := st.(mie := st.mpie, mpie := true, mpp := if c.isa.hasU then USER else MACHINE)))
    else if level == SUPERVISOR then
      c.(prv := st.spp, pc := s.sepc,
         csrs := s.(mstatus := st.(sie := st.spie, spie := true, spp := if c.isa.hasU then USER else SUPERVISOR)))
    else
      c.(prv := USER, pc := s.uepc, csrs := s.(mstatus := st.(uie := st.upie, upie := true)))
  }

  // ---------------------------------------------------------------- CSR writes

  datatype CsrWrite =
    | WriteStatus(level: nat, status: Status)
    | WriteMie(level: nat, bits: set<nat>)
    | WriteMip(level: nat, bits: set<nat>)
    | WriteMideleg(bits: set<nat>)
    | WriteSideleg(bits: set<nat>)
    | WriteMedeleg(bits: set<nat>)
    | WriteSedeleg(bits: set<nat>)
    | WriteTvec(level: nat, value: nat)
    | WriteEpc(level: nat, value: nat)
    | WriteCause(level: nat, cause: Cause)
    | WriteOther(level: nat)

  /** The privilege encoded in the CSR's address. */
  function CsrLevel(w: CsrWrite): nat {
    match w
    case WriteMideleg(_) | WriteMedeleg(_) => MACHINE
    case WriteSideleg(_) | WriteSedeleg(_) => SUPERVISOR
    case _ => w.level
  }

  function Masked(was: set<nat>, value: set<nat>, mask: set<nat>): set<nat> { (was - mask) + value * mask }

  /** x.reg = (x.reg & ~mask) | (value & mask) with mask ~2 */
  function MaskedTvec(was: Tvec, value: nat): Tvec { Tvec(value % TWO32 / 4 * 4, was.mode / 2 * 2 + value % 2) }

  /** The same with mask pc_alignment_mask(). */
  function MaskedEpc(isa: Isa, was: nat, value: nat): nat {
    if isa.hasC then value % TWO32 / 2 * 2 + was % 2 else value % TWO32 / 4 * 4 + was % 4
  }

  function MaskedStatus(was: Status, value: Status, level: nat): Status {
    if level == MACHINE then value
    else if level == SUPERVISOR then
      was.(uie := value.uie, sie := value.sie, upie := value.upie, spie := value.spie, spp := value.spp)
    else was.(uie := value.uie, upie := value.upie)
  }

  function SetCsr(c: Core, w: CsrWrite): Core {
    var s := c.csrs;
    c.(csrs :=
      match w
      case WriteStatus(l, v) => s.(mstatus := MaskedStatus(s.mstatus, v, l))
      case WriteMie(l, v) =>
        s.(mie := Masked(s.mie, v, if l == MACHINE then MIE_MASK else if l == SUPERVISOR then SIE_MASK else UIE_MASK))
      case WriteMip(l, v) =>
        s.(mip := Masked(s.mip, v, if l == MACHINE then MIP_WRITE_MASK else if l == SUPERVISOR then SIP_MASK else UIP_MASK))
      case WriteMideleg(v) => s.(mideleg := Masked(s.mideleg, v, MIE_MASK))
      case WriteSideleg(v) => s.(sideleg := Masked(s.sideleg, v, MIE_MASK))
      case WriteMedeleg(v) => s.(medeleg := Masked(s.medeleg, v, MEDELEG_MASK))
      case WriteSedeleg(v) => s.(sedeleg := Masked(s.sedeleg, v, SEDELEG_MASK))
      case WriteTvec(l, v) =>
        if l == MACHINE then s.(mtvec := MaskedTvec(s.mtvec, v))
        else if l == SUPERVISOR then s.(stvec := MaskedTvec(s.stvec, v))
        else s.(utvec := MaskedTvec(s.utvec, v))
      case WriteEpc(l, v) =>
        if l == MACHINE then s.(mepc := MaskedEpc(c.isa, s.mepc, v))
        else if l == SUPERVISOR then s.(sepc := MaskedEpc(c.isa, s.sepc, v))
        else s.(uepc := MaskedEpc(c.isa, s.uepc, v))
      case WriteCause(l, v) => SetCause(c, l, v).csrs
      case WriteOther(_) => s)
  }

  // ---------------------------------------------------------------- one step

  /** An instruction by what it does to the modelled state; len is its size in bytes. A faulting instruction may have
      written a register before its trap, as SC.W does. */
  datatype Instr =
    | Compute(len: nat, rd: nat, value: int)
    | Jal(len: nat, rd: nat, imm: int)
    | Jalr(len: nat, rd: nat, rs1: nat, imm: int)
    | Branch(len: nat, taken: bool, imm: int)
    | Csr(len: nat, rd: nat, value: int, write: CsrWrite)
    | Xret(level: nat, blocked: bool)
    | Faulting(len: nat, written: Option<(nat, int)>, reason: nat)

  predicate ValidInstr(i: Instr) {
    match i
    case Compute(len, rd, _) => len in {2, 4} && rd < 32
    case Jal(len, rd, imm) => len in {2, 4} && rd < 32 && imm % 2 == 0
    case Jalr(len, rd, rs1, _) => len in {2, 4} && rd < 32 && rs1 < 32
    case Branch(len, _, imm) => len in {2, 4} && imm % 2 == 0
    case Csr(len, rd, _, w) => len == 4 && rd < 32 && IsLevel(CsrLevel(w)) && ValidWrite(w)
    case Xret(level, _) => IsLevel(level)
    case Faulting(len, written, _) => len in {2, 4} && (written.Some? ==> written.value.0 < 32)
  }

  /** Field widths; and software does not write the reserved value 2 to MPP. */
  predicate ValidWrite(w: CsrWrite) {
    w.WriteStatus? ==> w.status.spp < 2 && IsLevel(w.status.mpp)
  }

  datatype Exec = Done(core: Core) | Raised(core: Core, reason: nat)

  const ILLEGAL: nat := 2
  const MISALIGNED: nat := 0

  function WriteReg(c: Core, rd: nat, v: int): Core
    requires rd < |c.x|
  {
    c.(x := c.x[rd := v])
  }

  /** A jump that has computed its target: trap_check_pc_alignment, then the link register. */
  function JumpTo(c: Core, target: nat, rd: Option<nat>, link: int): Exec
    requires rd.Some? ==> rd.value < |c.x|
  {
    var c' := c.(pc := target);
    if target % 4 != 0 && !c.isa.hasC then Raised(c', MISALIGNED)
    else Done(if rd.Some? then WriteReg(c', rd.value, link) else c')
  }

  function Length(i: Instr): nat { if i.Xret? then 4 else i.len }

  function ExecStep(c: Core, i: Instr): Exec
    requires ValidInstr(i) && |c.x| == 32
  {
    var len := Length(i);
    var c1 := c.(pc := (c.pc + len) % TWO32);
    if len == 2 && !c.isa.hasC then Raised(c1, ILLEGAL)
    else
      match i
      case Compute(_, rd, v) => Done(WriteReg(c1, rd, v))
      case Jal(_, rd, imm) => JumpTo(c1, (c.lastPc + imm) % TWO32, Some(rd), c1.pc)
      case Jalr(_, rd, rs1, imm) => JumpTo(c1, (c.x[rs1] + imm) % TWO32 / 2 * 2, Some(rd), c1.pc)
      case Branch(_, taken, imm) =>
        if taken then JumpTo(c1, (c.lastPc + imm) % TWO32, None, 0) else Done(c1)
      case Csr(_, rd, v, w) =>
        var l := CsrLevel(w);
        if c.prv < l || (l == SUPERVISOR && !c.isa.hasS) || (l == USER && !c.isa.hasU) then Raised(c1, ILLEGAL)
        else Done(SetCsr(WriteReg(c1, rd, v), w))
      case Xret(level, blocked) =>
        if blocked || (level == SUPERVISOR && !c.isa.hasS) || (level == USER && !c.isa.hasU) then Raised(c1, ILLEGAL)
        else Done(ReturnFromHandler(c1, level))
      case Faulting(_, written, reason) =>
        Raised(if written.Some? then WriteReg(c1, written.value.0, written.value.1) else c1, reason)
  }

  function TakeInterrupt(c: Core): Core {
    match ComputePending(c)
    case None => c
    case Some(p) =>
      match PickInterrupt(p.bits)
      case None => c
      case Some(code) => EnterHandler(SetCause(c, p.level, Cause(true, code)), p.level)
  }

  function RunStep(c: Core, i: Instr): Core
    requires ValidInstr(i) && |c.x| == 32
  {
    var c1 :=
      match ExecStep(c.(lastPc := c.pc), i)
      case Done(c') => TakeInterrupt(c')
      case Raised(c', reason) => EnterHandler(PrepareTrap(c', reason), TrapLevel(c', reason));
    if |c1.x| == 32 then c1.(x := c1.x[0 := 0]) else c1
  }

  /** Devices raise and clear interrupt lines between steps. */
  datatype Event = Step(i: Instr) | Lines(mip: set<nat>)

  function Next(c: Core, e: Event): Core
    requires |c.x| == 32 && (e.Step? ==> ValidInstr(e.i))
  {
    match e
    case Step(i) => RunStep(c, i)
    case Lines(mip) => c.(csrs := c.csrs.(mip := mip))
  }
}
