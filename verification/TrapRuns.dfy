/** Nested handlers over runs of the trap machine: what each xRET restores, and what a trap at a handler's own level costs. */
module TrapRuns {
  import opened Bits
  import opened Wrappers
  import opened TrapMachine
  import opened TrapProofs

  // ---------------------------------------------------------------- the registers of a level

  function Epc(c: Core, l: nat): nat {
    if l == MACHINE then c.csrs.mepc else if l == SUPERVISOR then c.csrs.sepc else c.csrs.uepc
  }

  /** xPP; user level keeps none and returns to itself. */
  function Pp(c: Core, l: nat): nat {
    if l == MACHINE then c.csrs.mstatus.mpp else if l == SUPERVISOR then c.csrs.mstatus.spp else USER
  }

  function Pie(c: Core, l: nat): bool {
    var s := c.csrs.mstatus;
    if l == MACHINE then s.mpie else if l == SUPERVISOR then s.spie else s.upie
  }

  function Ie(c: Core, l: nat): bool {
    var s := c.csrs.mstatus;
    if l == MACHINE then s.mie else if l == SUPERVISOR then s.sie else s.uie
  }

  function TvecOf(c: Core, l: nat): Tvec {
    if l == MACHINE then c.csrs.mtvec else if l == SUPERVISOR then c.csrs.stvec else c.csrs.utvec
  }

  function CauseOf(c: Core, l: nat): Cause {
    if l == MACHINE then c.csrs.mcause else if l == SUPERVISOR then c.csrs.scause else c.csrs.ucause
  }

  /** What xRET leaves in xPP. */
  function Lowest(isa: Isa, l: nat): nat { if isa.hasU then USER else l }

  predicate SameSaved(c: Core, d: Core, l: nat) { Epc(d, l) == Epc(c, l) && Pp(d, l) == Pp(c, l) && Pie(d, l) == Pie(c, l) }

  /** The place that a trap vector gives to a cause. */
  predicate GoesTo(t: Tvec, cause: Cause, pc: nat) {
    if cause.interrupt && t.mode == 1 then pc == (t.base + 4 * cause.code) % TWO32 else pc == t.base
  }

  /** d is c after the entry of a handler at level l for the given cause. */
  ghost predicate Entered(c: Core, d: Core, l: nat, cause: Cause) {
    && d.isa == c.isa && d.prv == l && CauseOf(d, l) == cause
    && GoesTo(TvecOf(c, l), cause, d.pc)
    && Epc(d, l) == c.pc && Pp(d, l) == c.prv && Pie(d, l) == Ie(c, l)
    && forall o | IsLevel(o) && o != l :: SameSaved(c, d, o) && Ie(d, o) == Ie(c, o)
  }

  /** d is c after xRET at level l. */
  ghost predicate ReturnedFrom(c: Core, d: Core, l: nat) {
    && d.isa == c.isa && d.pc == Epc(c, l) && d.prv == Pp(c, l) && Ie(d, l) == Pie(c, l)
    && Epc(d, l) == Epc(c, l) && Pie(d, l) && (l != USER ==> Pp(d, l) == Lowest(c.isa, l))
    && forall o | IsLevel(o) && o != l :: SameSaved(c, d, o) && Ie(d, o) == Ie(c, o)
  }

  /** Code that writes neither mstatus nor an xepc register and does not change privilege. */
  predicate KeepsTrapState(c: Core, d: Core) {
    && d.isa == c.isa && d.prv == c.prv && d.csrs.mstatus == c.csrs.mstatus
    && d.csrs.mepc == c.csrs.mepc && d.csrs.sepc == c.csrs.sepc && d.csrs.uepc == c.csrs.uepc
  }

  // ---------------------------------------------------------------- the parts of a step

  predicate CanStep(c: Core, e: Event) { Inv(c) && (e.Step? ==> ValidInstr(e.i)) }

  /** The state in which a step has done everything but enter a handler. */
  function Before(c: Core, e: Event): Core
    requires CanStep(c, e)
  {
    match e
    case Lines(_) => Next(c, e)
    case Step(i) =>
      match ExecStep(c.(lastPc := c.pc), i)
      case Done(c') => c'
      case Raised(c', _) => c'.(pc := c'.lastPc)
  }

  /** The level of the handler that the step enters. */
  function Entry(c: Core, e: Event): Option<nat>
    requires CanStep(c, e)
  {
    match e
    case Lines(_) => None
    case Step(i) =>
      match ExecStep(c.(lastPc := c.pc), i)
      case Done(c') => if ComputePending(c').Some? then Some(ComputePending(c').value.level) else None
      case Raised(c', reason) => Some(TrapLevel(c', reason))
  }

  predicate Returns(c: Core, e: Event)
    requires CanStep(c, e)
  {
    e.Step? && e.i.Xret? && ExecStep(c.(lastPc := c.pc), e.i).Done?
  }

  predicate WritesTrapState(e: Event) { e.Step? && e.i.Csr? && (e.i.write.WriteStatus? || e.i.write.WriteEpc?) }

  predicate SameTrapState(c: Core, d: Core) { KeepsTrapState(c, d) && d.pc == c.pc }

  /** The cause that the step records on entry. */
  function EntryCause(c: Core, e: Event): Cause
    requires CanStep(c, e)
  {
    match e
    case Lines(_) => Cause(false, 0)
    case Step(i) =>
      match ExecStep(c.(lastPc := c.pc), i)
      case Done(c') =>
        var p := ComputePending(c');
        Cause(true, if p.Some? && PickInterrupt(p.value.bits).Some? then PickInterrupt(p.value.bits).value else 0)
      case Raised(_, reason) => Cause(false, reason)
  }

  lemma {:induction false} EnterSaves(c: Core, cause: Cause, l: nat)
    requires IsLevel(l) && c.prv <= l && TvecOk(TvecOf(c, l))
    ensures Entered(c, EnterHandler(SetCause(c, l, cause), l), l, cause)
  {
    HandlerAddress(TvecOf(c, l), cause);
  }

  ghost predicate Splits(c: Core, e: Event)
    requires CanStep(c, e)
  {
    var b, n := Before(c, e), Next(c, e);
    match Entry(c, e)
    case None => SameTrapState(b, n)
    case Some(l) => IsLevel(l) && b.prv <= l && Entered(b, n, l, EntryCause(c, e))
  }

  /** Where an interrupt is chosen, the end of a turn enters its handler. */
  lemma {:induction false} InterruptEnters(c: Core, x: seq<int>)
    requires Mid(c) && ComputePending(c).Some?
    ensures var p := ComputePending(c).value;
            && IsLevel(p.level) && c.prv <= p.level && PickInterrupt(p.bits).Some?
            && Entered(c, TakeInterrupt(c).(x := x), p.level, Cause(true, PickInterrupt(p.bits).value))
  {
    ChosenInterrupt(c);
    var p := ComputePending(c).value;
    EnterSaves(c, Cause(true, PickInterrupt(p.bits).value), p.level);
  }

  lemma {:induction false} DoneSplits(c: Core, i: Instr)
    requires CanStep(c, Step(i)) && ExecStep(c.(lastPc := c.pc), i).Done? && Mid(ExecStep(c.(lastPc := c.pc), i).core)
    ensures Splits(c, Step(i))
  {
    var c' := ExecStep(c.(lastPc := c.pc), i).core;
    if ComputePending(c').Some? {
      InterruptEnters(c', Next(c, Step(i)).x);
      assert Next(c, Step(i)) == TakeInterrupt(c').(x := Next(c, Step(i)).x);
    }
  }

  lemma {:induction false} RaisedSplits(c: Core, i: Instr)
    requires CanStep(c, Step(i)) && ExecStep(c.(lastPc := c.pc), i).Raised?
    requires Kept(c.(lastPc := c.pc), ExecStep(c.(lastPc := c.pc), i))
    ensures Splits(c, Step(i))
  {
    var c', reason := ExecStep(c.(lastPc := c.pc), i).core, ExecStep(c.(lastPc := c.pc), i).reason;
    TrapNeverLowers(c', reason);
    EnterSaves(c'.(pc := c'.lastPc), Cause(false, reason), TrapLevel(c', reason));
  }

  /** A step is its part before an entry, followed by the entry if there is one. */
  lemma {:induction false} StepSplits(c: Core, e: Event)
    requires CanStep(c, e)
    ensures Splits(c, e)
  {
    if e.Step? {
      var c0 := c.(lastPc := c.pc);
      assert Inv(c0);
      ExecKeeps(c0, e.i);
      if ExecStep(c0, e.i).Done? {
        DoneSplits(c, e.i);
      } else {
        RaisedSplits(c, e.i);
      }
    }
  }

  /** A step that raises an exception enters the handler of the lowest level, not below the current one, that the exception
      reaches, and records its reason there. */
  lemma {:induction false} ExceptionIsDelegated(c: Core, i: Instr)
    requires CanStep(c, Step(i)) && ExecStep(c.(lastPc := c.pc), i).Raised?
    ensures var n, reason := Next(c, Step(i)), ExecStep(c.(lastPc := c.pc), i).reason;
            && IsLevel(n.prv) && c.prv <= n.prv && Reaches(c.csrs, reason, n.prv)
            && (forall o: nat | IsLevel(o) && c.prv <= o < n.prv :: !Reaches(c.csrs, reason, o))
            && CauseOf(n, n.prv) == Cause(false, reason)
            && n.pc == TvecOf(c, n.prv).base && Epc(n, n.prv) == c.pc
  {
    var c0 := c.(lastPc := c.pc);
    assert Inv(c0);
    ExecKeeps(c0, i);
    StepSplits(c, Step(i));
    TrapGoesWhereDelegated(ExecStep(c0, i).core, ExecStep(c0, i).reason);
    RaisedKeepsLastPc(c0, i);
  }

  lemma {:induction false} RaisedKeepsLastPc(c: Core, i: Instr)
    requires |c.x| == 32 && ValidInstr(i) && ExecStep(c, i).Raised?
    ensures ExecStep(c, i).core.lastPc == c.lastPc
  {
  }

  lemma {:induction false} ReturnLoads(c: Core, e: Event)
    requires CanStep(c, e) && Returns(c, e)
    ensures ReturnedFrom(c, Before(c, e), e.i.level)
  {
  }

  lemma {:induction false} CodeKeeps(c: Core, e: Event)
    requires CanStep(c, e) && !Returns(c, e) && !WritesTrapState(e)
    ensures KeepsTrapState(c, Before(c, e))
  {
  }

  // ---------------------------------------------------------------- the open handlers

  /** An open handler: its level, the state that its trap interrupted, and where the last trap that was taken at its own
      level while it was open interrupted it. */
  datatype Frame = Frame(level: nat, at: Core, reentered: Option<nat>)

  /** The open handlers, the innermost last. */
  type Stack = seq<Frame>

  function Top(stack: Stack): Frame
    requires stack != []
  {
    stack[|stack| - 1]
  }

  function Push(stack: Stack, l: nat, b: Core): Stack {
    if stack != [] && Top(stack).level == l then
      stack[|stack| - 1 := Top(stack).(reentered := Some(b.pc))] + [Frame(l, b, None)]
    else stack + [Frame(l, b, None)]
  }

  function StackNext(stack: Stack, c: Core, e: Event): Stack
    requires CanStep(c, e)
  {
    var rest := if stack != [] && Returns(c, e) then stack[..|stack| - 1] else stack;
    match Entry(c, e)
    case None => rest
    case Some(l) => Push(rest, l, Before(c, e))
  }

  /** While a handler is open, xRET is the one of its level, and nothing writes mstatus or an xepc register. */
  predicate Disciplined(stack: Stack, c: Core, e: Event)
    requires CanStep(c, e)
  {
    stack != [] ==> (Returns(c, e) ==> e.i.level == Top(stack).level) && !WritesTrapState(e)
  }

  /** The step is not the return of a handler that was interrupted at its own level. */
  predicate Unharmed(stack: Stack, c: Core, e: Event)
    requires CanStep(c, e)
  {
    stack != [] && Returns(c, e) ==> Top(stack).reentered.None?
  }

  // ---------------------------------------------------------------- what the registers hold for them

  /** The registers of the frame's level, as its xRET will find them. */
  predicate Holds(c: Core, f: Frame) {
    match f.reentered
    case None => Epc(c, f.level) == f.at.pc && Pp(c, f.level) == f.at.prv && Pie(c, f.level) == Ie(f.at, f.level)
    case Some(p) => Epc(c, f.level) == p && Pp(c, f.level) == Lowest(c.isa, f.level) && Pie(c, f.level)
  }

  /** cur is the state in or on top of an open handler: its privilege is the handler's, and the enables of other levels
      are the ones that its trap interrupted. */
  ghost predicate Within(cur: Core, f: Frame) {
    && IsLevel(f.level) && f.at.prv <= f.level && cur.prv == f.level && cur.isa == f.at.isa
    && forall o | IsLevel(o) && o != f.level :: Ie(cur, o) == Ie(f.at, o)
  }

  /** Frame k: what lies on top of it, whether it was interrupted at its level, and what the registers hold if it is the
      last frame of its level. */
  ghost predicate FrameOk(stack: Stack, c: Core, k: nat)
    requires k < |stack|
  {
    if k + 1 < |stack| then
      && Within(stack[k + 1].at, stack[k])
      && (if stack[k + 1].level == stack[k].level then stack[k].reentered == Some(stack[k + 1].at.pc)
          else Holds(c, stack[k]))
    else Within(c, stack[k]) && Holds(c, stack[k])
  }

  ghost predicate StackOk(stack: Stack, c: Core) {
    forall k: nat | k < |stack| :: FrameOk(stack, c, k)
  }

  /** Handlers open upwards. */
  lemma {:induction false} LevelsRise(stack: Stack, c: Core, k: nat)
    requires StackOk(stack, c) && k < |stack|
    ensures stack[k].level <= c.prv == Top(stack).level
    decreases |stack| - k
  {
    assert FrameOk(stack, c, k);
    assert FrameOk(stack, c, |stack| - 1);
    if k + 1 < |stack| {
      LevelsRise(stack, c, k + 1);
      assert FrameOk(stack, c, k + 1);
    }
  }

  lemma {:induction false} CodeKeepsStack(stack: Stack, c: Core, b: Core)
    requires StackOk(stack, c) && KeepsTrapState(c, b)
    ensures StackOk(stack, b)
  {
    forall k: nat | k < |stack|
      ensures FrameOk(stack, b, k)
    {
      assert FrameOk(stack, c, k);
    }
  }

  lemma {:induction false} PopKeepsStack(stack: Stack, c: Core, b: Core)
    requires stack != [] && StackOk(stack, c) && ReturnedFrom(c, b, Top(stack).level) && Top(stack).reentered.None?
    ensures StackOk(stack[..|stack| - 1], b)
  {
    var n := |stack| - 1;
    assert FrameOk(stack, c, n);
    forall k: nat | k < n
      ensures FrameOk(stack[..n], b, k)
    {
      assert FrameOk(stack, c, k);
      assert FrameOk(stack, c, k + 1);
      LevelsRise(stack, c, k + 1);
    }
  }

  lemma {:induction false} PushKeepsStack(stack: Stack, b: Core, n: Core, l: nat, cause: Cause)
    requires StackOk(stack, b) && IsLevel(l) && b.prv <= l && Entered(b, n, l, cause)
    ensures StackOk(Push(stack, l, b), n)
  {
    var s := Push(stack, l, b);
    forall k: nat | k < |s|
      ensures FrameOk(s, n, k)
    {
      if k < |stack| {
        assert FrameOk(stack, b, k);
        if k + 1 < |stack| {
          assert FrameOk(stack, b, k + 1);
          LevelsRise(stack, b, k + 1);
        }
        LevelsRise(stack, b, k);
      }
    }
  }

  lemma {:induction false} StepKeepsStack(stack: Stack, c: Core, e: Event)
    requires CanStep(c, e) && StackOk(stack, c) && Disciplined(stack, c, e) && Unharmed(stack, c, e)
    ensures StackOk(StackNext(stack, c, e), Next(c, e))
  {
    var b, n := Before(c, e), Next(c, e);
    var rest := if stack != [] && Returns(c, e) then stack[..|stack| - 1] else stack;
    assert StackOk(rest, b) by {
      if stack != [] {
        if Returns(c, e) {
          ReturnLoads(c, e);
          PopKeepsStack(stack, c, b);
        } else {
          CodeKeeps(c, e);
          CodeKeepsStack(stack, c, b);
        }
      }
    }
    StepSplits(c, e);
    match Entry(c, e) {
      case None => CodeKeepsStack(rest, b, n);
      case Some(l) => PushKeepsStack(rest, b, n, l, EntryCause(c, e));
    }
  }

  // ---------------------------------------------------------------- what a return restores

  ghost predicate Restored(at: Core, d: Core) {
    d.pc == at.pc && d.prv == at.prv && forall l | IsLevel(l) :: Ie(d, l) == Ie(at, l)
  }

  /** Where the handler was interrupted at its own level, the pc, xPP and the enable that its return finds happen to be
      the original ones. */
  predicate Coincides(f: Frame) {
    f.reentered.Some? ==>
      f.reentered.value == f.at.pc && Lowest(f.at.isa, f.level) == f.at.prv && Ie(f.at, f.level)
  }

  lemma {:induction false} ReturnOutcome(stack: Stack, c: Core, e: Event)
    requires CanStep(c, e) && StackOk(stack, c) && Disciplined(stack, c, e) && stack != [] && Returns(c, e)
    ensures var f, b := Top(stack), Before(c, e);
            && (Restored(f.at, b) <==> Coincides(f))
            && (f.reentered.Some? ==>
                  && b.pc == f.reentered.value && b.prv == Lowest(f.at.isa, f.level) && Ie(b, f.level)
                  && forall o | IsLevel(o) && o != f.level :: Ie(b, o) == Ie(f.at, o))
  {
    assert FrameOk(stack, c, |stack| - 1);
    ReturnLoads(c, e);
  }

  // ---------------------------------------------------------------- runs

  ghost predicate StepOk(cores: seq<Core>, events: seq<Event>, stacks: seq<Stack>, k: nat)
    requires k < |events| && |cores| == |stacks| == |events| + 1
  {
    && CanStep(cores[k], events[k]) && Disciplined(stacks[k], cores[k], events[k])
    && cores[k + 1] == Next(cores[k], events[k])
    && stacks[k + 1] == StackNext(stacks[k], cores[k], events[k])
  }

  /** A piece of a run, with the handlers that were opened in it. */
  ghost predicate IsTrace(cores: seq<Core>, events: seq<Event>, stacks: seq<Stack>) {
    && |cores| == |stacks| == |events| + 1
    && stacks[0] == []
    && forall k: nat | k < |events| :: StepOk(cores, events, stacks, k)
  }

  /** Every state of a run can take its step in this sense, so every piece of a run whose steps are disciplined is one. */
  lemma {:induction false} RunCanStep(cores: seq<Core>, events: seq<Event>, k: nat)
    requires IsRun(cores, events) && k < |events|
    ensures CanStep(cores[k], events[k]) && cores[k + 1] == Next(cores[k], events[k])
  {
    RunKeepsInv(cores, events, k);
    assert StepAt(cores, events, k);
  }

  ghost predicate UnharmedUntil(cores: seq<Core>, events: seq<Event>, stacks: seq<Stack>, n: nat)
    requires IsTrace(cores, events, stacks) && n <= |events|
  {
    forall k: nat | k < n :: StepOk(cores, events, stacks, k) && Unharmed(stacks[k], cores[k], events[k])
  }

  lemma {:induction false} TraceKeepsStack(cores: seq<Core>, events: seq<Event>, stacks: seq<Stack>, n: nat)
    requires IsTrace(cores, events, stacks) && n <= |events| && UnharmedUntil(cores, events, stacks, n)
    ensures StackOk(stacks[n], cores[n])
  {
    if n > 0 {
      TraceKeepsStack(cores, events, stacks, n - 1);
      assert StepOk(cores, events, stacks, n - 1) && Unharmed(stacks[n - 1], cores[n - 1], events[n - 1]);
      StepKeepsStack(stacks[n - 1], cores[n - 1], events[n - 1]);
    }
  }

  /** In every piece of a run in which xRET is the one of the open handler and no open handler writes mstatus or an xepc
      register: a return restores the pc, the privilege and all three enables that the trap interrupted, if and only if no
      trap was taken at the handler's own level while it was open, or what that trap left behind is the same. What it left
      is the place where it interrupted the handler, the privilege that the first xRET puts into xPP, and a set enable.
      An interrupt taken in the same step interrupts just that state. */
  lemma {:induction false} HandlerRestoresIff(cores: seq<Core>, events: seq<Event>, stacks: seq<Stack>, n: nat)
    requires IsTrace(cores, events, stacks) && n < |events| && UnharmedUntil(cores, events, stacks, n)
    requires StepOk(cores, events, stacks, n) && stacks[n] != [] && Returns(cores[n], events[n])
    ensures var f, b := Top(stacks[n]), Before(cores[n], events[n]);
            && (Restored(f.at, b) <==> Coincides(f))
            && (f.reentered.Some? ==>
                  && b.pc == f.reentered.value && b.prv == Lowest(f.at.isa, f.level) && Ie(b, f.level)
                  && forall o | IsLevel(o) && o != f.level :: Ie(b, o) == Ie(f.at, o))
            && (if Entry(cores[n], events[n]).None? then Restored(b, cores[n + 1])
                else stacks[n + 1] != [] && Top(stacks[n + 1]).at == b)
  {
    TraceKeepsStack(cores, events, stacks, n);
    ReturnOutcome(stacks[n], cores[n], events[n]);
    StepSplits(cores[n], events[n]);
  }

  // ---------------------------------------------------------------- a run that loses its return

  /** From reset at an entry point other than 0: a trap in the machine handler of a trap. The second return goes to the
      handler instead of the entry point, into user mode, with interrupts enabled. */
  lemma {:induction false} NestedTrapLoses(c: Core) returns (cores: seq<Core>, events: seq<Event>)
    requires Reset(c) && c.pc != 0 && c.isa.hasU
    ensures IsRun(cores, events) && cores[0] == c
    ensures events == [Step(Faulting(4, None, 2)), Step(Faulting(4, None, 2)), Step(Xret(3, false)), Step(Xret(3, false))]
    ensures cores[4].pc == 0 != c.pc && cores[4].prv == USER != c.prv && Ie(cores[4], MACHINE) != Ie(c, MACHINE)
  {
    var trap, ret := Step(Faulting(4, None, 2)), Step(Xret(3, false));
    events := [trap, trap, ret, ret];
    var c1 := Next(c, trap);
    var c2 := Next(c1, trap);
    var c3 := Next(c2, ret);
    var c4 := Next(c3, ret);
    cores := [c, c1, c2, c3, c4];
    forall k: nat | k < |events|
      ensures StepAt(cores, events, k)
    {
    }
  }

  // ---------------------------------------------------------------- general registers

  /** The register that an instruction writes and its value; c has lastPc at the instruction. */
  function Written(c: Core, i: Instr): Option<(nat, int)> {
    match i
    case Compute(_, rd, v) => Some((rd, v))
    case Csr(_, rd, v, _) => Some((rd, v))
    case Jal(len, rd, _) => Some((rd, (c.pc + len) % TWO32))
    case Jalr(len, rd, _, _) => Some((rd, (c.pc + len) % TWO32))
    case Faulting(_, written, _) => written
    case _ => None
  }

  lemma {:induction false} HandlersKeepRegisters(c: Core, l: nat, cause: Cause)
    ensures EnterHandler(SetCause(c, l, cause), l).x == c.x && ReturnFromHandler(c, l).x == c.x && TakeInterrupt(c).x == c.x
  {
  }

  lemma {:induction false} BeforeWrites(c: Core, i: Instr, o: nat)
    requires CanStep(c, Step(i)) && 0 < o < 32
    ensures var b, w := Before(c, Step(i)), Written(c, i);
            && |b.x| == 32
            && (b.x[o] == c.x[o] || (w.Some? && w.value.0 == o && b.x[o] == w.value.1))
            && (w.Some? && w.value.0 == o && ExecStep(c.(lastPc := c.pc), i).Done? ==> b.x[o] == w.value.1)
  {
  }

  lemma {:induction false} NextKeepsRegisters(c: Core, e: Event, o: nat)
    requires CanStep(c, e) && 0 < o < 32 && |Before(c, e).x| == 32
    ensures |Next(c, e).x| == 32 && Next(c, e).x[o] == Before(c, e).x[o]
  {
    if e.Step? {
      match ExecStep(c.(lastPc := c.pc), e.i)
      case Done(c') => HandlersKeepRegisters(c', 0, Cause(false, 0));
      case Raised(c', reason) =>
        HandlersKeepRegisters(c'.(pc := c'.lastPc), TrapLevel(c', reason), Cause(false, reason));
    }
  }

  /** A step changes no general register but the one its instruction names, traps, interrupts and returns included; an
      instruction that completes has written that one. */
  lemma {:induction false} RegistersKept(c: Core, e: Event, o: nat)
    requires CanStep(c, e) && 0 < o < 32
    ensures |Next(c, e).x| == 32
    ensures e.Lines? ==> Next(c, e).x[o] == c.x[o]
    ensures e.Step? ==>
              var w, v := Written(c, e.i), Next(c, e).x[o];
              && (v == c.x[o] || (w.Some? && w.value.0 == o && v == w.value.1))
              && (w.Some? && w.value.0 == o && ExecStep(c.(lastPc := c.pc), e.i).Done? ==> v == w.value.1)
  {
    if e.Step? {
      BeforeWrites(c, e.i, o);
      NextKeepsRegisters(c, e, o);
    }
  }

  // ---------------------------------------------------------------- calls

  /** A call goes the told distance, and a jump through its link register comes back behind it. */
  lemma {:induction false} CallReturns(c: Core, len: nat, rd: nat, imm: int)
    requires Inv(c) && c.isa.hasC && c.lastPc == c.pc && ValidInstr(Jal(len, rd, imm)) && rd != 0
    ensures var d := ExecStep(c, Jal(len, rd, imm));
            && d.Done? && d.core.pc < TWO32 && (d.core.pc - c.pc - imm) % TWO32 == 0
            && ExecStep(d.core, Jalr(2, 0, rd, 0)).Done?
            && ExecStep(d.core, Jalr(2, 0, rd, 0)).core.pc == (c.pc + len) % TWO32
  {
    var x := c.pc + imm;
    AddMultiple(0, TWO32, -(x / TWO32));
    assert x % TWO32 - x == 0 + TWO32 * -(x / TWO32);
    var link := (c.pc + len) % TWO32;
    AlignedPlus(c.isa, c.pc, len);
    QuotientIs(link, TWO32, 0, link);
    assert link == 2 * (link / 2);
  }

  // ---------------------------------------------------------------- what CSR writes leave

  /** The interrupts are those of user, supervisor and machine level, four codes each for software, timer and external. */
  predicate IsInterruptOf(code: nat, level: nat) { code < 12 && code % 4 != 2 && code % 4 <= level }

  /** A write to the enables or the delegation of interrupts reaches exactly the bits of its level and below. */
  lemma {:induction false} InterruptBitsWritten(c: Core, l: nat, v: set<nat>, code: nat)
    requires IsLevel(l)
    ensures code in SetCsr(c, WriteMie(l, v)).csrs.mie <==> code in if IsInterruptOf(code, l) then v else c.csrs.mie
    ensures code in SetCsr(c, WriteMideleg(v)).csrs.mideleg <==>
            code in if IsInterruptOf(code, MACHINE) then v else c.csrs.mideleg
    ensures code in SetCsr(c, WriteSideleg(v)).csrs.sideleg <==>
            code in if IsInterruptOf(code, MACHINE) then v else c.csrs.sideleg
    ensures code in SetCsr(c, WriteMip(MACHINE, v)).csrs.mip <==>
            code in if IsInterruptOf(code, SUPERVISOR) then v else c.csrs.mip
    ensures l < MACHINE ==>
              (code in SetCsr(c, WriteMip(l, v)).csrs.mip <==> code in if code <= l then v else c.csrs.mip)
  {
  }

  /** Exceptions can be delegated but for the calls from machine mode's own levels: 10 and 14 do not exist, and supervisor
      mode keeps the calls from itself and from machine mode. */
  lemma {:induction false} ExceptionBitsWritten(c: Core, v: set<nat>, code: nat)
    ensures code in SetCsr(c, WriteMedeleg(v)).csrs.medeleg <==>
            code in if code < 16 && code != 10 && code != 14 then v else c.csrs.medeleg
    ensures code in SetCsr(c, WriteSedeleg(v)).csrs.sedeleg <==>
            code in if code < 16 && code != 14 && !(9 <= code <= 11) then v else c.csrs.sedeleg
  {
  }

  /** A write of xtvec or xepc reads back without the bits that cannot be set, and leaves the other levels alone. */
  lemma {:induction false} VectorWritten(c: Core, l: nat, v: nat)
    requires Mid(c) && IsLevel(l) && v < TWO32
    ensures var t := TvecOf(SetCsr(c, WriteTvec(l, v)), l); t.base == v - v % 4 && t.mode == v % 2
    ensures var a := Epc(SetCsr(c, WriteEpc(l, v)), l); a == v - v % (if c.isa.hasC then 2 else 4)
    ensures forall o | IsLevel(o) && o != l ::
              TvecOf(SetCsr(c, WriteTvec(l, v)), o) == TvecOf(c, o) && Epc(SetCsr(c, WriteEpc(l, v)), o) == Epc(c, o)
  {
  }

  /** A write of xstatus reaches the enable, the saved enable and the saved privilege of its level and below. */
  lemma {:induction false} StatusWritten(c: Core, l: nat, v: Status, o: nat)
    requires IsLevel(l) && IsLevel(o)
    ensures var d, w := SetCsr(c, WriteStatus(l, v)), c.(csrs := c.csrs.(mstatus := v));
            if o <= l then Ie(d, o) == Ie(w, o) && Pie(d, o) == Pie(w, o) && Pp(d, o) == Pp(w, o)
            else Ie(d, o) == Ie(c, o) && Pie(d, o) == Pie(c, o) && Pp(d, o) == Pp(c, o)
  {
  }

  predicate WritesTvec(e: Event, l: nat) { e.Step? && e.i.Csr? && e.i.write.WriteTvec? && e.i.write.level == l }

  lemma {:induction false} EntryKeepsTvec(c: Core, l: nat, cause: Cause, o: nat)
    ensures TvecOf(EnterHandler(SetCause(c, l, cause), l), o) == TvecOf(c, o)
  {
  }

  lemma {:induction false} BeforeKeepsTvec(c: Core, e: Event, l: nat)
    requires CanStep(c, e) && IsLevel(l) && !WritesTvec(e, l)
    ensures TvecOf(Before(c, e), l) == TvecOf(c, l)
  {
  }

  lemma {:induction false} TvecAfterStep(c: Core, e: Event, l: nat)
    requires CanStep(c, e)
    ensures TvecOf(Next(c, e), l) == TvecOf(Before(c, e), l)
  {
    if e.Step? {
      match ExecStep(c.(lastPc := c.pc), e.i)
      case Done(c') =>
        match ComputePending(c') {
          case None =>
          case Some(p) =>
            match PickInterrupt(p.bits) {
              case None =>
              case Some(code) => EntryKeepsTvec(c', p.level, Cause(true, code), l);
            }
        }
      case Raised(c', reason) =>
        EntryKeepsTvec(c'.(pc := c'.lastPc), TrapLevel(c', reason), Cause(false, reason), l);
    }
  }

  lemma {:induction false} TvecKept(c: Core, e: Event, l: nat)
    requires CanStep(c, e) && IsLevel(l) && !WritesTvec(e, l)
    ensures TvecOf(Next(c, e), l) == TvecOf(c, l)
  {
    TvecAfterStep(c, e, l);
    BeforeKeepsTvec(c, e, l);
  }

  /** Over runs, xtvec holds what was last written to it. */
  lemma {:induction false} TvecLastWritten(cores: seq<Core>, events: seq<Event>, k: nat, n: nat, l: nat)
    requires IsRun(cores, events) && k < n <= |events| && IsLevel(l) && WritesTvec(events[k], l)
    requires CanStep(cores[k], events[k]) && ExecStep(cores[k].(lastPc := cores[k].pc), events[k].i).Done?
    requires forall j | k < j < n :: !WritesTvec(events[j], l)
    requires events[k].i.write.value < TWO32
    ensures var v := events[k].i.write.value; TvecOf(cores[n], l) == Tvec(v - v % 4, v % 2)
  {
    RunCanStep(cores, events, n - 1);
    if n == k + 1 {
      TvecWrite(cores[k], events[k], l);
    } else {
      TvecLastWritten(cores, events, k, n - 1, l);
      TvecKept(cores[n - 1], events[n - 1], l);
    }
  }

  lemma {:induction false} TvecWrite(c: Core, e: Event, l: nat)
    requires CanStep(c, e) && IsLevel(l) && WritesTvec(e, l) && e.i.write.value < TWO32
    requires ExecStep(c.(lastPc := c.pc), e.i).Done?
    ensures var v := e.i.write.value; TvecOf(Next(c, e), l) == Tvec(v - v % 4, v % 2)
  {
    var c0 := c.(lastPc := c.pc);
    var c1 := WriteReg(c0.(pc := (c0.pc + 4) % TWO32), e.i.rd, e.i.value);
    AfterInstruction(c0, 4);
    WriteKeeps(c0.(pc := (c0.pc + 4) % TWO32), e.i.rd, e.i.value);
    VectorWritten(c1, l, e.i.write.value);
    TvecAfterStep(c, e, l);
  }
}
