/** What every run of the trap machine keeps, how it chooses handlers, and how handlers nest. */
module TrapProofs {
  import opened TrapMachine
  import opened Bits
  import opened Wrappers

  // ---------------------------------------------------------------- the invariant

  predicate AlignedTo(isa: Isa, a: nat) { Aligned(isa, a) && a < TWO32 }

  predicate TvecOk(t: Tvec) { t.base % 4 == 0 && t.base < TWO32 && t.mode < 2 }

  /** What the assertions at the start of run_step and exec_step check, and what keeps them true. */
  predicate Inv(c: Core) {
    var s := c.csrs;
    && |c.x| == 32 && c.x[0] == 0
    && AlignedTo(c.isa, c.pc)
    && AlignedTo(c.isa, s.mepc) && AlignedTo(c.isa, s.sepc) && AlignedTo(c.isa, s.uepc)
    && TvecOk(s.mtvec) && TvecOk(s.stvec) && TvecOk(s.utvec)
    && IsLevel(c.prv) && IsLevel(s.mstatus.mpp) && s.mstatus.spp < 2
    && s.mie <= MIE_MASK
  }

  /** The same while an instruction is under way: x0 may have been written. */
  predicate Mid(c: Core) { |c.x| == 32 && Inv(c.(x := c.x[0 := 0])) }

  lemma {:induction false} FourIsEven(x: int)
    requires x % 4 == 0
    ensures x % 2 == 0
  {
    QuotientIs(x, 2, 2 * (x / 4), 0);
  }

  lemma {:induction false} WrapKeepsParity(x: int)
    requires x % 2 == 0
    ensures x % TWO32 % 2 == 0
  {
    var k := x / TWO32;
    AddMultiple(x, 2, -(0x8000_0000 * k));
  }

  lemma {:induction false} WrapKeepsAlignment(x: int)
    requires x % 4 == 0
    ensures x % TWO32 % 4 == 0
  {
    var k := x / TWO32;
    AddMultiple(x, 4, -(0x4000_0000 * k));
  }

  lemma {:induction false} AlignedPlus(isa: Isa, a: nat, d: int)
    requires AlignedTo(isa, a) && Aligned(isa, d)
    ensures AlignedTo(isa, (a + d) % TWO32)
  {
    if isa.hasC {
      AddMultiple(a, 2, d / 2);
      WrapKeepsParity(a + d);
    } else {
      AddMultiple(a, 4, d / 4);
      WrapKeepsAlignment(a + d);
    }
  }

  lemma {:induction false} WordAlignedIsAligned(isa: Isa, a: nat)
    requires a % 4 == 0 && a < TWO32
    ensures AlignedTo(isa, a)
  {
    FourIsEven(a);
  }

  lemma {:induction false} HandlerPcAligned(isa: Isa, t: Tvec, cause: Cause)
    requires TvecOk(t)
    ensures AlignedTo(isa, HandlerPc(t, cause))
  {
    WrapKeepsAlignment(t.base + (if cause.interrupt && t.mode == 1 then 4 * cause.code else 0));
    WordAlignedIsAligned(isa, HandlerPc(t, cause));
  }

  lemma {:induction false} EnterKeeps(c: Core, level: nat)
    requires Mid(c) && IsLevel(level) && (level == SUPERVISOR ==> c.prv < 2)
    ensures Mid(EnterHandler(c, level))
  {
    HandlerPcAligned(c.isa, c.csrs.mtvec, c.csrs.mcause);
    HandlerPcAligned(c.isa, c.csrs.stvec, c.csrs.scause);
    HandlerPcAligned(c.isa, c.csrs.utvec, c.csrs.ucause);
  }

  lemma {:induction false} ReturnKeeps(c: Core, level: nat)
    requires Mid(c) && IsLevel(level)
    ensures Mid(ReturnFromHandler(c, level))
  {
  }

  lemma {:induction false} MaskedTvecOk(t: Tvec, v: nat)
    requires TvecOk(t)
    ensures TvecOk(MaskedTvec(t, v))
  {
  }

  lemma {:induction false} RoundedDown(x: nat, a: nat)
    requires a > 0
    ensures 0 <= x / a * a <= x && x / a * a % a == 0
  {
    assert x == a * (x / a) + x % a && x / a * a == a * (x / a);
    MulLe(a, 0, x / a);
    QuotientIs(x / a * a, a, x / a, 0);
  }

  lemma {:induction false} MaskedEpcOk(isa: Isa, was: nat, v: nat)
    requires AlignedTo(isa, was)
    ensures AlignedTo(isa, MaskedEpc(isa, was, v))
  {
    RoundedDown(v % TWO32, 2);
    RoundedDown(v % TWO32, 4);
  }

  lemma {:induction false} SetCsrKeeps(c: Core, w: CsrWrite)
    requires Mid(c) && IsLevel(CsrLevel(w)) && ValidWrite(w)
    ensures Mid(SetCsr(c, w))
  {
    match w {
      case WriteTvec(_, v) =>
        MaskedTvecOk(c.csrs.mtvec, v);
        MaskedTvecOk(c.csrs.stvec, v);
        MaskedTvecOk(c.csrs.utvec, v);
      case WriteEpc(_, v) =>
        MaskedEpcOk(c.isa, c.csrs.mepc, v);
        MaskedEpcOk(c.isa, c.csrs.sepc, v);
        MaskedEpcOk(c.isa, c.csrs.uepc, v);
      case _ =>
    }
  }

  /** Kept by the end of an instruction; only a trap may leave the pc behind, and the trap entry resets it. */
  predicate Kept(c: Core, e: Exec) {
    match e
    case Done(c') => Mid(c')
    case Raised(c', _) => Mid(c'.(pc := c'.lastPc)) && c'.prv == c.prv && c'.csrs == c.csrs
  }

  lemma {:induction false} JumpKeeps(c: Core, target: nat, rd: Option<nat>, link: int)
    requires Mid(c) && Mid(c.(pc := c.lastPc)) && target % 2 == 0 && target < TWO32 && (rd.Some? ==> rd.value < 32)
    ensures Kept(c, JumpTo(c, target, rd, link))
  {
    if target % 4 == 0 || c.isa.hasC {
      var c' := c.(pc := target);
      assert Mid(c');
      if rd.Some? {
        assert c'.x[rd.value := link][0 := 0] == c'.x[0 := 0][rd.value := link][0 := 0];
      }
    }
  }

  lemma {:induction false} LowBitCleared(x: int)
    ensures 0 <= x % TWO32 / 2 * 2 < TWO32 && x % TWO32 / 2 * 2 % 2 == 0
  {
  }

  lemma {:induction false} AfterInstruction(c: Core, len: nat)
    requires Inv(c) && c.lastPc == c.pc && (len == 4 || (len == 2 && c.isa.hasC))
    ensures var c1 := c.(pc := (c.pc + len) % TWO32); Mid(c1) && Mid(c1.(pc := c1.lastPc))
  {
    AlignedPlus(c.isa, c.pc, len);
    assert c.x[0 := 0] == c.x;
  }

  lemma {:induction false} WriteKeeps(c: Core, rd: nat, v: int)
    requires Mid(c) && rd < 32
    ensures Mid(WriteReg(c, rd, v))
  {
    assert c.x[rd := v][0 := 0][0] == 0;
  }

  lemma {:induction false} CsrKeeps(c: Core, rd: nat, v: int, w: CsrWrite)
    requires Mid(c) && rd < 32 && IsLevel(CsrLevel(w)) && ValidWrite(w)
    ensures Mid(SetCsr(WriteReg(c, rd, v), w))
  {
    WriteKeeps(c, rd, v);
    SetCsrKeeps(WriteReg(c, rd, v), w);
  }

  lemma {:induction false} TargetAligned(c: Core, imm: int)
    requires Inv(c) && c.lastPc == c.pc && imm % 2 == 0
    ensures (c.lastPc + imm) % TWO32 % 2 == 0
  {
    if !c.isa.hasC {
      FourIsEven(c.lastPc);
    }
    AddMultiple(c.lastPc, 2, imm / 2);
    WrapKeepsParity(c.lastPc + imm);
  }

  lemma {:induction false} JumpInstrKeeps(c: Core, i: Instr)
    requires Inv(c) && c.lastPc == c.pc && ValidInstr(i) && (i.Jal? || i.Jalr? || i.Branch?) && (i.len == 4 || c.isa.hasC)
    ensures Kept(c, ExecStep(c, i))
  {
    AfterInstruction(c, i.len);
    var c1 := c.(pc := (c.pc + i.len) % TWO32);
    match i {
      case Jal(_, rd, imm) =>
        TargetAligned(c, imm);
        JumpKeeps(c1, (c.lastPc + imm) % TWO32, Some(rd), c1.pc);
      case Jalr(_, rd, rs1, imm) =>
        LowBitCleared(c.x[rs1] + imm);
        JumpKeeps(c1, (c.x[rs1] + imm) % TWO32 / 2 * 2, Some(rd), c1.pc);
      case Branch(_, taken, imm) =>
        TargetAligned(c, imm);
        JumpKeeps(c1, (c.lastPc + imm) % TWO32, None, 0);
    }
  }

  /** Executing an instruction keeps the invariant. */
  lemma {:induction false} ExecKeeps(c: Core, i: Instr)
    requires Inv(c) && c.lastPc == c.pc && ValidInstr(i)
    ensures Kept(c, ExecStep(c, i))
  {
    var len := Length(i);
    if len == 4 || c.isa.hasC {
      AfterInstruction(c, len);
      var c1 := c.(pc := (c.pc + len) % TWO32);
      match i {
        case Csr(_, rd, v, w) => CsrKeeps(c1, rd, v, w);
        case Xret(level, _) => ReturnKeeps(c1, level);
        case Compute(_, rd, v) => WriteKeeps(c1, rd, v);
        case Faulting(_, written, _) =>
          if written.Some? {
            WriteKeeps(c1.(pc := c1.lastPc), written.value.0, written.value.1);
          }
        case _ => JumpInstrKeeps(c, i);
      }
    }
  }

  // ---------------------------------------------------------------- choosing a handler

  /** The interrupt chosen is pending, enabled and delegated to the level that takes it, that level is not below the
      current one, and no candidate precedes it in the priority order; the throw for an empty choice is unreachable. */
  lemma {:induction false} ChosenInterrupt(c: Core)
    requires c.csrs.mie <= MIE_MASK && IsLevel(c.prv) && ComputePending(c).Some?
    ensures var p := ComputePending(c).value;
            var s := c.csrs;
            && PickInterrupt(p.bits).Some?
            && var code := PickInterrupt(p.bits).value;
               && code in s.mie && code in s.mip && code in p.bits
               && IsLevel(p.level) && c.prv <= p.level
               && (if p.level == MACHINE then code !in s.mideleg
                   else if p.level == SUPERVISOR then code in s.mideleg && code !in s.sideleg
                   else code in s.mideleg && code in s.sideleg)
               && (forall other :: other in p.bits ==> Rank(code) <= Rank(other))
  {
    var p := ComputePending(c).value;
    assert p.bits <= MIE_MASK;
    var b :| b in p.bits;
    assert b in MIE_MASK;
    var code := PickInterrupt(p.bits).value;
    forall other | other in p.bits
      ensures Rank(code) <= Rank(other)
    {
      assert other in MIE_MASK;
    }
  }

  /** An interrupt that is pending, enabled and admitted at some level is never passed over. */
  lemma {:induction false} NoInterruptMissed(c: Core, code: nat)
    requires code in c.csrs.mie && code in c.csrs.mip && IsLevel(c.prv)
    requires ComputePending(c).None?
    ensures var s := c.csrs;
            if code !in s.mideleg then c.prv == MACHINE && !s.mstatus.mie
            else if code !in s.sideleg then c.prv > SUPERVISOR || (c.prv == SUPERVISOR && !s.mstatus.sie)
            else c.prv > USER || !s.mstatus.uie
  {
    var s := c.csrs;
    assert code in s.mie * s.mip;
    if code !in s.mideleg {
      assert code in s.mie * s.mip - s.mideleg;
    } else if code !in s.sideleg {
      assert code in (s.mie * s.mip) * s.mideleg - s.sideleg;
    } else {
      assert code in (s.mie * s.mip) * s.mideleg * s.sideleg;
    }
  }

  /** A trap is never taken below the privilege it interrupts. */
  lemma {:induction false} TrapNeverLowers(c: Core, reason: nat)
    requires IsLevel(c.prv)
    ensures IsLevel(TrapLevel(c, reason)) && c.prv <= TrapLevel(c, reason)
    ensures TrapLevel(c, reason) == USER ==> c.prv == USER && reason in c.csrs.medeleg && reason in c.csrs.sedeleg
  {
  }

  /** A trap with this reason reaches a level if every higher level has delegated it. */
  predicate Reaches(s: Csrs, reason: nat, l: nat) {
    && (l < MACHINE ==> reason in s.medeleg)
    && (l < SUPERVISOR ==> reason in s.sedeleg)
  }

  /** A trap goes to the lowest level that it reaches and that is not below the interrupted privilege. */
  lemma {:induction false} TrapGoesWhereDelegated(c: Core, reason: nat)
    requires IsLevel(c.prv)
    ensures var l := TrapLevel(c, reason);
            && IsLevel(l) && c.prv <= l && Reaches(c.csrs, reason, l)
            && forall o: nat | IsLevel(o) && c.prv <= o < l :: !Reaches(c.csrs, reason, o)
  {
  }

  /** The address of a handler: the base for exceptions and in direct mode; in vectored mode one word per interrupt code. */
  lemma {:induction false} HandlerAddress(t: Tvec, cause: Cause)
    requires TvecOk(t)
    ensures !cause.interrupt || t.mode == 0 ==> HandlerPc(t, cause) == t.base
    ensures t.mode == 1 && cause == Cause(true, 0) ==> HandlerPc(t, cause) == t.base
    ensures t.mode == 1 && cause.interrupt ==>
              HandlerPc(t, Cause(true, cause.code + 1)) == (HandlerPc(t, cause) + 4) % TWO32
  {
    var x := t.base + 4 * cause.code;
    AddMultiple(x % TWO32 + 4, TWO32, x / TWO32);
    assert x + 4 == (x % TWO32 + 4) + TWO32 * (x / TWO32);
  }

  /** Right after entry at a level, only a strictly higher level can be selected, whatever lines are raised meanwhile. */
  lemma {:induction false} EntryMasksOwnLevel(c: Core, level: nat, mip: set<nat>)
    requires IsLevel(level)
    ensures var c' := EnterHandler(c, level);
            var c'' := c'.(csrs := c'.csrs.(mip := mip));
            ComputePending(c'').Some? ==> ComputePending(c'').value.level > level
  {
  }

  // ---------------------------------------------------------------- runs

  lemma {:induction false} TakeInterruptKeeps(c: Core)
    requires Mid(c)
    ensures Mid(TakeInterrupt(c)) && TakeInterrupt(c).prv >= c.prv
  {
    if ComputePending(c).Some? {
      ChosenInterrupt(c);
      var p := ComputePending(c).value;
      var c1 := SetCause(c, p.level, Cause(true, PickInterrupt(p.bits).value));
      assert Mid(c1);
      EnterKeeps(c1, p.level);
    }
  }

  lemma {:induction false} TakeTrapKeeps(c: Core, reason: nat)
    requires Mid(c.(pc := c.lastPc))
    ensures Mid(EnterHandler(PrepareTrap(c, reason), TrapLevel(c, reason)))
    ensures EnterHandler(PrepareTrap(c, reason), TrapLevel(c, reason)).prv >= c.prv
  {
    TrapNeverLowers(c, reason);
    assert Mid(PrepareTrap(c, reason));
    EnterKeeps(PrepareTrap(c, reason), TrapLevel(c, reason));
  }

  lemma {:induction false} StepKeepsInv(c: Core, e: Event)
    requires Inv(c) && (e.Step? ==> ValidInstr(e.i))
    ensures Inv(Next(c, e))
  {
    match e {
      case Lines(_) =>
      case Step(i) =>
        var c0 := c.(lastPc := c.pc);
        assert Inv(c0);
        ExecKeeps(c0, i);
        match ExecStep(c0, i) {
          case Done(c') => TakeInterruptKeeps(c');
          case Raised(c', reason) => TakeTrapKeeps(c', reason);
        }
    }
  }

  ghost predicate StepAt(cores: seq<Core>, events: seq<Event>, k: nat)
    requires k < |events| && |cores| == |events| + 1
  {
    && |cores[k].x| == 32
    && (events[k].Step? ==> ValidInstr(events[k].i))
    && cores[k + 1] == Next(cores[k], events[k])
  }

  /** Reset state with an aligned entry point. */
  predicate Reset(c: Core) {
    && c.x == seq(32, i => 0)
    && AlignedTo(c.isa, c.pc)
    && c.prv == MACHINE
    && c.csrs == Csrs(Status(false, false, false, false, false, false, 0, 0), {}, {}, {}, {}, {}, {},
                      Tvec(0, 0), Tvec(0, 0), Tvec(0, 0), 0, 0, 0, Cause(false, 0), Cause(false, 0), Cause(false, 0))
  }

  ghost predicate IsRun(cores: seq<Core>, events: seq<Event>) {
    && |cores| == |events| + 1
    && Reset(cores[0])
    && forall k: nat | k < |events| :: StepAt(cores, events, k)
  }

  /** In every reachable state x0 is zero, pc and the xepc registers are aligned for the C extension setting, the xtvec
      modes are direct or vectored and the privilege is a real one, so no assertion of the step fires. */
  lemma {:induction false} RunKeepsInv(cores: seq<Core>, events: seq<Event>, n: nat)
    requires IsRun(cores, events) && n <= |events|
    ensures Inv(cores[n])
  {
    if n > 0 {
      RunKeepsInv(cores, events, n - 1);
      assert StepAt(cores, events, n - 1);
      StepKeepsInv(cores[n - 1], events[n - 1]);
    }
  }

  /** In every reachable state a step lowers the privilege only by executing xRET. */
  lemma {:induction false} OnlyReturnsLowerPrivilege(cores: seq<Core>, events: seq<Event>, n: nat)
    requires IsRun(cores, events) && n < |events|
    requires cores[n + 1].prv < cores[n].prv
    ensures events[n].Step? && events[n].i.Xret?
  {
    RunKeepsInv(cores, events, n);
    assert StepAt(cores, events, n);
    var c := cores[n];
    match events[n] {
      case Lines(_) =>
      case Step(i) =>
        var c0 := c.(lastPc := c.pc);
        assert Inv(c0);
        ExecKeeps(c0, i);
        match ExecStep(c0, i) {
          case Done(c') => TakeInterruptKeeps(c');
          case Raised(c', reason) => TakeTrapKeeps(c', reason);
        }
    }
  }
}
