/** The trap part of the ISS as an object: each method updates the registers in place and is the step of TrapMachine. */
module Iss {
  import opened TrapMachine
  import opened Wrappers
  import opened TrapProofs

  class Iss {
    const isa: Isa
    var regs: seq<int>
    var pc: nat
    var lastPc: nat
    var prv: nat
    var csrs: Csrs

    ghost function State(): Core
      reads this
    {
      Core(isa, regs, pc, lastPc, prv, csrs)
    }

    constructor (isa: Isa, entrypoint: nat)
      requires AlignedTo(isa, entrypoint)
      ensures Reset(State()) && Inv(State()) && State().isa == isa && pc == entrypoint
    {
      this.isa := isa;
      regs := seq(32, i => 0);
      pc, lastPc, prv := entrypoint, 0, MACHINE;
      csrs := Csrs(Status(false, false, false, false, false, false, 0, 0), {}, {}, {}, {}, {}, {},
                   Tvec(0, 0), Tvec(0, 0), Tvec(0, 0), 0, 0, 0, Cause(false, 0), Cause(false, 0), Cause(false, 0));
    }

    method SetCauseRegister(level: nat, cause: Cause)
      modifies this`csrs
      ensures State() == SetCause(old(State()), level, cause)
    {
      if level == MACHINE {
        csrs := csrs.(mcause := cause);
      } else if level == SUPERVISOR {
        csrs := csrs.(scause := cause);
      } else {
        csrs := csrs.(ucause := cause);
      }
    }

    /** Rewinds the pc to the trapping instruction and records the cause at the level that will handle it. */
    method PrepareTrap(reason: nat) returns (level: nat)
      requires IsLevel(prv)
      modifies this`pc, this`csrs
      ensures level == TrapLevel(old(State()), reason) && prv <= level && IsLevel(level)
      ensures State() == TrapMachine.PrepareTrap(old(State()), reason)
    {
      pc := lastPc;
      if prv == MACHINE || reason !in csrs.medeleg {
        level := MACHINE;
      } else if prv == SUPERVISOR || reason !in csrs.sedeleg {
        level := SUPERVISOR;
      } else {
        assert prv == USER;
        level := USER;
      }
      SetCauseRegister(level, Cause(false, reason));
    }

    method ComputePendingInterrupts() returns (p: Option<Pending>)
      ensures p == ComputePending(State())
    {
      var pending := csrs.mie * csrs.mip;
      if pending == {} {
        return None;
      }
      var m := pending - csrs.mideleg;
      if m != {} && (prv < MACHINE || (prv == MACHINE && csrs.mstatus.mie)) {
        return Some(Pending(MACHINE, m));
      }
      pending := pending * csrs.mideleg;
      var s := pending - csrs.sideleg;
      if s != {} && (prv < SUPERVISOR || (prv == SUPERVISOR && csrs.mstatus.sie)) {
        return Some(Pending(SUPERVISOR, s));
      }
      var u := pending * csrs.sideleg;
      if u != {} && prv == USER && csrs.mstatus.uie {
        return Some(Pending(USER, u));
      }
      return None;
    }

    /** Records the chosen interrupt; the throw for an empty choice would be the None of PickInterrupt. */
    method PrepareInterrupt(p: Pending) returns (code: nat)
      requires Mid(State()) && ComputePending(State()) == Some(p)
      modifies this`csrs
      ensures PickInterrupt(p.bits) == Some(code)
      ensures State() == SetCause(old(State()), p.level, Cause(true, code))
    {
      ChosenInterrupt(State());
      code := PickInterrupt(p.bits).value;
      SetCauseRegister(p.level, Cause(true, code));
    }

    method SwitchToTrapHandler(level: nat)
      requires IsLevel(level)
      modifies this`pc, this`prv, this`csrs
      ensures State() == EnterHandler(old(State()), level)
    {
      var pp := prv;
      prv := level;
      var st := csrs.mstatus;
      if level == MACHINE {
        csrs := csrs.(mepc := pc, mstatus := st.(mpie := st.mie, mie := false, mpp := pp));
        pc := HandlerPc(csrs.mtvec, csrs.mcause);
      } else if level == SUPERVISOR {
        csrs := csrs.(sepc := pc, mstatus := st.(spie := st.sie, sie := false, spp := pp));
        pc := HandlerPc(csrs.stvec, csrs.scause);
      } else {
        csrs := csrs.(uepc := pc, mstatus := st.(upie := st.uie, uie := false));
        pc := HandlerPc(csrs.utvec, csrs.ucause);
      }
    }

    method ReturnFromTrapHandler(level: nat)
      requires IsLevel(level)
      modifies this`pc, this`prv, this`csrs
      ensures State() == ReturnFromHandler(old(State()), level)
    {
      var st := csrs.mstatus;
      if level == MACHINE {
        prv, pc := st.mpp, csrs.mepc;
        csrs := csrs.(mstatus := st.(mie := st.mpie, mpie := true, mpp := if isa.hasU then USER else MACHINE));
      } else if level == SUPERVISOR {
        prv, pc := st.spp, csrs.sepc;
        csrs := csrs.(mstatus := st.(sie := st.spie, spie := true, spp := if isa.hasU then USER else SUPERVISOR));
      } else {
        prv, pc := USER, csrs.uepc;
        csrs := csrs.(mstatus := st.(uie := st.upie, upie := true));
      }
    }

    method Apply(c: Core)
      requires c.isa == isa
      modifies this
      ensures State() == c
    {
      regs, pc, lastPc, prv, csrs := c.x, c.pc, c.lastPc, c.prv, c.csrs;
    }

    /** The end of a turn without a trap: an enabled interrupt is taken. */
    method TakePendingInterrupt()
      requires Mid(State())
      modifies this`pc, this`prv, this`csrs
      ensures State() == TakeInterrupt(old(State()))
    {
      var p := ComputePendingInterrupts();
      if p.Some? {
        ChosenInterrupt(State());
        var code := PrepareInterrupt(p.value);
        SwitchToTrapHandler(p.value.level);
      }
    }

    /** The end of a turn that raised a trap. */
    method TakeTrap(reason: nat)
      requires IsLevel(prv)
      modifies this`pc, this`prv, this`csrs
      ensures State() ==
              EnterHandler(TrapMachine.PrepareTrap(old(State()), reason), TrapLevel(old(State()), reason))
    {
      var level := PrepareTrap(reason);
      SwitchToTrapHandler(level);
    }

    /** One turn of the instruction loop, with its assertions on x0 and on the alignment of the pc. */
    method RunStep(i: Instr)
      requires Inv(State()) && ValidInstr(i)
      modifies this
      ensures State() == TrapMachine.RunStep(old(State()), i)
      ensures Inv(State())
    {
      StepKeepsInv(State(), Step(i));
      assert regs[0] == 0;
      lastPc := pc;
      assert Aligned(isa, pc);
      ExecKeeps(State(), i);
      match ExecStep(Core(isa, regs, pc, lastPc, prv, csrs), i) {
        case Done(c) =>
          Apply(c);
          TakePendingInterrupt();
        case Raised(c, reason) =>
          Apply(c);
          TakeTrap(reason);
      }
      regs := regs[0 := 0];
    }
  }
}
