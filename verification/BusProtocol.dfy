/**
 The bus lock shared by all harts and bus masters, and what it guarantees for LR/SC and AMO instructions.

 Every access to the bus is one step, and any hart or peripheral may step between any two of them, which is more
 than the cooperative scheduler allows. A step that the lock forbids is not enabled: its thread waits.
 */
module BusProtocol {
  import opened Bits
  import opened Wrappers

  type Memory = map<nat, int>

  function Read(m: Memory, a: nat): int { if a in m then m[a] else 0 }

  /** The operation of an AMO instruction on the loaded word and the register operand. */
  type AmoOp = (int, int) -> int

  /**
   Where a hart stands in its current instruction.
   Running: inside an instruction that holds no pending atomic access.
   LrLoad, ScStore, AmoLoad, AmoStore: the atomic access has started; `wrote` says that the address translation
   of the pending access has stored a page table entry.
   Retiring: the instruction or its trap is over, performance_and_sync_update comes next.
   Asleep, Syncing: given up the processor in WFI or in the quantum sync.
   Aborted: the assertion in atomic_store_word failed.
   */
  datatype Stage =
    | Boundary
    | Running
    | LrLoad
    | ScStore(value: int, wrote: bool)
    | AmoLoad(op: AmoOp, operand: int, wrote: bool)
    | AmoStore(pa: nat, op: AmoOp, operand: int, seen: int, wrote: bool)
    | Retiring
    | Asleep
    | Syncing
    | Aborted

  datatype Hart = Hart(stage: Stage, lrAddr: nat, counter: nat)

  datatype State = State(lock: Option<nat>, mem: Memory, harts: seq<Hart>)

  datatype Action =
    | Begin(h: nat)
    | Load(h: nat, pa: nat)
    | Store(h: nat, pa: nat, v: int)
    | PteStore(h: nat, pa: nat, v: int)
    | LrLock(h: nat, va: nat)
    | LrRead(h: nat, pa: nat)
    | ScCheck(h: nat, va: nat, v: int)
    | ScWrite(h: nat, pa: nat)
    | AmoLock(h: nat, op: AmoOp, operand: int)
    | AmoRead(h: nat, pa: nat)
    | AmoWrite(h: nat)
    | Trap(h: nat)
    | Finish(h: nat)
    | Wfi(h: nat, sleeps: bool)
    | Wake(h: nat)
    | Retire(h: nat, needSync: bool)
    | Synced(h: nat)
    | Peripheral(pa: nat, v: int)

  // ---------------------------------------------------------------- the lock

  /** wait_for_access_rights lets h through. */
  predicate MayAccess(lock: Option<nat>, h: nat) { lock.None? || lock.value == h }

  function Unlock(lock: Option<nat>, h: nat): Option<nat> { if lock == Some(h) then None else lock }

  // ---------------------------------------------------------------- steps

  predicate InInstruction(st: Stage) {
    st.Running? || st.LrLoad? || st.ScStore? || st.AmoLoad? || st.AmoStore? || st.Retiring?
  }

  predicate Translating(st: Stage) {
    st.Running? || st.LrLoad? || st.ScStore? || st.AmoLoad? || st.AmoStore?
  }

  predicate Enabled(s: State, a: Action) {
    match a
    case Peripheral(_, _) => s.lock.None?
    case _ =>
      a.h < |s.harts| &&
      var st := s.harts[a.h].stage;
      match a
      case Begin(_) => st.Boundary?
      case Load(_, _) | Store(_, _, _) => st.Running? && MayAccess(s.lock, a.h)
      case PteStore(_, _, _) => Translating(st) && MayAccess(s.lock, a.h)
      case LrLock(_, _) | AmoLock(_, _, _) => st.Running? && MayAccess(s.lock, a.h)
      case LrRead(_, _) => st.LrLoad? && MayAccess(s.lock, a.h)
      case ScCheck(_, _, _) | Finish(_) | Wfi(_, _) => st.Running?
      case ScWrite(_, _) => st.ScStore? && MayAccess(s.lock, a.h)
      case AmoRead(_, _) => st.AmoLoad? && MayAccess(s.lock, a.h)
      case AmoWrite(_) => st.AmoStore? && MayAccess(s.lock, a.h)
      case Trap(_) => InInstruction(st)
      case Wake(_) => st.Asleep?
      case Retire(_, _) => st.Retiring?
      case Synced(_) => st.Syncing?
  }

  function Put(s: State, h: nat, hart: Hart): State
    requires h < |s.harts|
  {
    s.(harts := s.harts[h := hart])
  }

  /** A store by h: the word changes, and a lock that h owns is released with it. */
  function StoreBy(s: State, h: nat, pa: nat, v: int): State {
    s.(mem := s.mem[pa := v], lock := Unlock(s.lock, h))
  }

  /** The pending access remembers that its translation stored. */
  function Wrote(st: Stage): Stage {
    match st
    case ScStore(value, _) => ScStore(value, true)
    case AmoLoad(op, operand, _) => AmoLoad(op, operand, true)
    case AmoStore(pa, op, operand, seen, _) => AmoStore(pa, op, operand, seen, true)
    case _ => st
  }

  function ReleaseReservation(s: State, h: nat, next: Stage): State
    requires h < |s.harts|
  {
    Put(s.(lock := Unlock(s.lock, h)), h, s.harts[h].(stage := next, counter := 0))
  }

  function Next(s: State, a: Action): State
    requires Enabled(s, a)
  {
    match a
    case Peripheral(pa, v) => s.(mem := s.mem[pa := v])
    case Begin(h) => Put(s, h, s.harts[h].(stage := Running))
    case Load(_, _) => s
    case Store(h, pa, v) => StoreBy(s, h, pa, v)
    case PteStore(h, pa, v) => Put(StoreBy(s, h, pa, v), h, s.harts[h].(stage := Wrote(s.harts[h].stage)))
    case LrLock(h, va) => Put(s.(lock := Some(h)), h, s.harts[h].(stage := LrLoad, lrAddr := va))
    case LrRead(h, _) =>
      var c := s.harts[h].counter;
      Put(s, h, s.harts[h].(stage := Retiring, counter := if c == 0 then 17 else c))
    case ScCheck(h, va, v) =>
      if s.lock == Some(h) && va == s.harts[h].lrAddr then
        Put(s, h, s.harts[h].(stage := ScStore(v, false)))
      else
        Put(s.(lock := Unlock(s.lock, h)), h, s.harts[h].(stage := Retiring, counter := 0))
    case ScWrite(h, pa) =>
      Put(StoreBy(s, h, pa, s.harts[h].stage.value), h, s.harts[h].(stage := Retiring, counter := 0))
    case AmoLock(h, op, operand) => Put(s.(lock := Some(h)), h, s.harts[h].(stage := AmoLoad(op, operand, false)))
    case AmoRead(h, pa) =>
      var st := s.harts[h].stage;
      if s.lock == Some(h) then
        Put(s, h, s.harts[h].(stage := AmoStore(pa, st.op, st.operand, Read(s.mem, pa), false)))
      else
        Put(s, h, s.harts[h].(stage := Aborted))
    case AmoWrite(h) =>
      var st := s.harts[h].stage;
      Put(StoreBy(s, h, st.pa, st.op(st.seen, st.operand)), h, s.harts[h].(stage := Retiring))
    case Trap(h) => ReleaseReservation(s, h, Retiring)
    case Finish(h) => Put(s, h, s.harts[h].(stage := Retiring))
    case Wfi(h, sleeps) => ReleaseReservation(s, h, if sleeps then Asleep else Retiring)
    case Wake(h) => Put(s, h, s.harts[h].(stage := Retiring))
    case Retire(h, needSync) =>
      var c := s.harts[h].counter;
      if c > 1 then Put(s, h, s.harts[h].(stage := Boundary, counter := c - 1))
      else
        var after := if needSync then Syncing else Boundary;
        if c == 1 then ReleaseReservation(s, h, after) else Put(s, h, s.harts[h].(stage := after))
    case Synced(h) => Put(s, h, s.harts[h].(stage := Boundary))
  }

  // ---------------------------------------------------------------- runs

  predicate Init(s: State) {
    s.lock.None? && forall h | 0 <= h < |s.harts| :: s.harts[h].stage.Boundary? && s.harts[h].counter == 0
  }

  /** actions[k] is enabled in states[k] and leads to states[k + 1]. */
  ghost predicate StepAt(states: seq<State>, actions: seq<Action>, k: nat)
    requires k < |actions| && |states| == |actions| + 1
  {
    Enabled(states[k], actions[k]) && states[k + 1] == Next(states[k], actions[k])
  }

  ghost predicate IsRun(states: seq<State>, actions: seq<Action>) {
    && |states| == |actions| + 1
    && Init(states[0])
    && forall k: nat | k < |actions| :: StepAt(states, actions, k)
  }

  // ---------------------------------------------------------------- what every step keeps

  /** The counter stays in range, and the translation flags say exactly when a pending access has lost the lock. */
  predicate HartOk(s: State, h: nat)
    requires h < |s.harts|
  {
    var hart := s.harts[h];
    && hart.counter <= (if hart.stage.Retiring? then 17 else 16)
    && (match hart.stage
        case ScStore(_, wrote) => s.lock == Some(h) <==> !wrote
        case AmoLoad(_, _, wrote) => s.lock == Some(h) <==> !wrote
        case AmoStore(pa, _, _, seen, wrote) =>
          (s.lock == Some(h) <==> !wrote) && (!wrote ==> seen == Read(s.mem, pa))
        case _ => true)
  }

  /** The owner is inside an instruction or between two, never parked, and has a running countdown unless it is
      inside the access that took the lock. */
  predicate OwnerOk(s: State, h: nat)
    requires h < |s.harts|
  {
    var hart := s.harts[h];
    && (InInstruction(hart.stage) || hart.stage.Boundary?)
    && (hart.stage.Boundary? || hart.stage.Running? || hart.stage.ScStore? || hart.stage.Retiring? ==> hart.counter >= 1)
  }

  predicate Inv(s: State) {
    && (forall h | 0 <= h < |s.harts| :: HartOk(s, h))
    && (s.lock.Some? ==> s.lock.value < |s.harts| && OwnerOk(s, s.lock.value))
  }

  /** A step leaves the harts that do not take it alone. */
  lemma {:induction false} OthersUnchanged(s: State, a: Action, h: nat)
    requires Enabled(s, a) && h < |s.harts| && (a.Peripheral? || a.h != h)
    ensures var s' := Next(s, a); |s'.harts| == |s.harts| && s'.harts[h] == s.harts[h]
  {
  }

  lemma {:induction false} StepKeepsOther(s: State, a: Action, h: nat)
    requires Inv(s) && Enabled(s, a) && h < |s.harts| && (a.Peripheral? || a.h != h)
    ensures HartOk(Next(s, a), h)
    ensures s.lock == Some(h) ==> Next(s, a).lock == Some(h) && Next(s, a).mem == s.mem
    ensures s.lock != Some(h) ==> Next(s, a).lock != Some(h)
  {
    assert HartOk(s, h);
  }

  lemma {:induction false} StepKeepsSelf(s: State, a: Action)
    requires Inv(s) && Enabled(s, a) && !a.Peripheral?
    ensures HartOk(Next(s, a), a.h)
    ensures Next(s, a).lock == Some(a.h) ==> OwnerOk(Next(s, a), a.h)
  {
    assert HartOk(s, a.h);
  }

  lemma {:induction false} StepKeepsInv(s: State, a: Action)
    requires Inv(s) && Enabled(s, a)
    ensures Inv(Next(s, a))
  {
    var s' := Next(s, a);
    forall h | 0 <= h < |s'.harts|
      ensures HartOk(s', h)
      ensures s'.lock == Some(h) ==> OwnerOk(s', h)
    {
      if !a.Peripheral? && a.h == h {
        StepKeepsSelf(s, a);
      } else {
        StepKeepsOther(s, a, h);
        OthersUnchanged(s, a, h);
      }
    }
    LockOwnerIsHart(s, a);
  }

  lemma {:induction false} LockOwnerIsHart(s: State, a: Action)
    requires Inv(s) && Enabled(s, a)
    ensures |Next(s, a).harts| == |s.harts|
    ensures Next(s, a).lock.Some? ==> Next(s, a).lock.value < |s.harts|
  {
  }

  lemma {:induction false} RunKeepsInv(states: seq<State>, actions: seq<Action>, n: nat)
    requires IsRun(states, actions) && n <= |actions|
    ensures Inv(states[n])
  {
    if n > 0 {
      RunKeepsInv(states, actions, n - 1);
      assert StepAt(states, actions, n - 1);
      StepKeepsInv(states[n - 1], actions[n - 1]);
    }
  }

  // ---------------------------------------------------------------- LR/SC

  predicate IsStore(a: Action) { a.Store? || a.PteStore? || a.ScWrite? || a.AmoWrite? || a.Peripheral? }

  lemma {:induction false} OnlyStoresChangeMemory(s: State, a: Action)
    requires Enabled(s, a) && !IsStore(a)
    ensures Next(s, a).mem == s.mem
  {
  }

  /** The lock is owned on behalf of a load-reserved, not of an AMO in flight. */
  predicate Reserved(s: State, h: nat) {
    s.lock == Some(h) && h < |s.harts| && !s.harts[h].stage.AmoLoad? && !s.harts[h].stage.AmoStore?
  }

  /** At step j hart h took its reservation on va, and nothing has stored and h has reserved nothing else since. */
  ghost predicate UntouchedSince(states: seq<State>, actions: seq<Action>, j: nat, n: nat, h: nat, va: nat)
    requires |states| == |actions| + 1 && n <= |actions|
  {
    && j < n
    && actions[j] == LrLock(h, va)
    && (forall k | j < k < n :: !IsStore(actions[k]) && !(actions[k].LrLock? && actions[k].h == h))
    && (forall k | j <= k <= n :: states[k].mem == states[j].mem)
  }

  lemma {:induction false} ReservationStep(s: State, a: Action, h: nat)
    requires Inv(s) && Enabled(s, a) && Reserved(Next(s, a), h)
    ensures (a == LrLock(h, Next(s, a).harts[h].lrAddr) && Next(s, a).mem == s.mem)
         || (Reserved(s, h) && !IsStore(a) && !(a.LrLock? && a.h == h) && Next(s, a).harts[h].lrAddr == s.harts[h].lrAddr)
  {
    assert HartOk(s, h);
  }

  /** While a reservation stands, memory has not been written by anyone since the load-reserved that made it. */
  lemma {:induction false} ReservationIntact(states: seq<State>, actions: seq<Action>, n: nat, h: nat) returns (j: nat)
    requires IsRun(states, actions) && n <= |actions|
    requires Reserved(states[n], h)
    ensures UntouchedSince(states, actions, j, n, h, states[n].harts[h].lrAddr)
  {
    assert n > 0;
    var s, a := states[n - 1], actions[n - 1];
    RunKeepsInv(states, actions, n - 1);
    assert StepAt(states, actions, n - 1);
    ReservationStep(s, a, h);
    if a == LrLock(h, states[n].harts[h].lrAddr) {
      j := n - 1;
    } else {
      OnlyStoresChangeMemory(s, a);
      j := ReservationIntact(states, actions, n - 1, h);
    }
  }

  /** A store-conditional to va passes its check only if its hart's last load-reserved was to va and no store by
      anyone, of data or of page table entries, has happened since: memory is what it was then. */
  lemma {:induction false} ScSucceedsOnlyUntouched(states: seq<State>, actions: seq<Action>, n: nat) returns (j: nat)
    requires IsRun(states, actions) && n < |actions| && actions[n].ScCheck?
    requires StepAt(states, actions, n) && states[n + 1].harts[actions[n].h].stage.ScStore?
    ensures UntouchedSince(states, actions, j, n, actions[n].h, actions[n].va)
  {
    j := ReservationIntact(states, actions, n, actions[n].h);
  }

  /** When the word is finally written, memory is still untouched exactly if the translation of the
      store-conditional itself stored no page table entry. */
  lemma {:induction false} ScWriteUntouched(states: seq<State>, actions: seq<Action>, n: nat) returns (j: nat)
    requires IsRun(states, actions) && n < |actions| && StepAt(states, actions, n) && actions[n].ScWrite?
    ensures var h := actions[n].h;
            if states[n].harts[h].stage.wrote then states[n].lock != Some(h)
            else UntouchedSince(states, actions, j, n, h, states[n].harts[h].lrAddr)
  {
    var h := actions[n].h;
    RunKeepsInv(states, actions, n);
    assert HartOk(states[n], h);
    j := 0;
    if !states[n].harts[h].stage.wrote {
      j := ReservationIntact(states, actions, n, h);
    }
  }

  // ---------------------------------------------------------------- AMO

  /** A committed change of memory: a plain store, or a whole read-modify-write. */
  datatype Commit = Word(pa: nat, v: int) | Rmw(pa: nat, op: AmoOp, operand: int)

  function ApplyCommit(m: Memory, c: Commit): Memory {
    match c
    case Word(pa, v) => m[pa := v]
    case Rmw(pa, op, operand) => m[pa := op(Read(m, pa), operand)]
  }

  /** What the step commits, if anything. */
  function Committed(s: State, a: Action): seq<Commit>
    requires Enabled(s, a)
  {
    match a
    case Store(_, pa, v) => [Word(pa, v)]
    case PteStore(_, pa, v) => [Word(pa, v)]
    case Peripheral(pa, v) => [Word(pa, v)]
    case ScWrite(h, pa) => [Word(pa, s.harts[h].stage.value)]
    case AmoWrite(h) => [Rmw(s.harts[h].stage.pa, s.harts[h].stage.op, s.harts[h].stage.operand)]
    case _ => []
  }

  function Serial(m: Memory, log: seq<Commit>): Memory
    decreases |log|
  {
    if log == [] then m else ApplyCommit(Serial(m, log[..|log| - 1]), log[|log| - 1])
  }

  ghost function Log(states: seq<State>, actions: seq<Action>, n: nat): seq<Commit>
    requires IsRun(states, actions) && n <= |actions|
  {
    if n == 0 then []
    else
      assert StepAt(states, actions, n - 1);
      Log(states, actions, n - 1) + Committed(states[n - 1], actions[n - 1])
  }

  /** No AMO's address translation stores a page table entry. */
  predicate AmoTranslatesQuietly(s: State, a: Action) {
    a.PteStore? && a.h < |s.harts| ==> !s.harts[a.h].stage.AmoLoad? && !s.harts[a.h].stage.AmoStore?
  }

  ghost predicate QuietUntil(states: seq<State>, actions: seq<Action>, n: nat)
    requires |states| == |actions| + 1 && n <= |actions|
  {
    forall k | 0 <= k < n :: AmoTranslatesQuietly(states[k], actions[k])
  }

  predicate NoAmoWrote(s: State) {
    forall h | 0 <= h < |s.harts| ::
      && (s.harts[h].stage.AmoLoad? ==> !s.harts[h].stage.wrote)
      && (s.harts[h].stage.AmoStore? ==> !s.harts[h].stage.wrote)
      && !s.harts[h].stage.Aborted?
  }

  lemma {:induction false} QuietStep(s: State, a: Action)
    requires Inv(s) && Enabled(s, a) && NoAmoWrote(s) && AmoTranslatesQuietly(s, a)
    ensures NoAmoWrote(Next(s, a))
    ensures Next(s, a).mem == Serial(s.mem, Committed(s, a))
  {
    var s' := Next(s, a);
    assert !a.Peripheral? ==> HartOk(s, a.h);
    forall h | 0 <= h < |s'.harts|
      ensures s'.harts[h].stage.AmoLoad? ==> !s'.harts[h].stage.wrote
      ensures s'.harts[h].stage.AmoStore? ==> !s'.harts[h].stage.wrote
      ensures !s'.harts[h].stage.Aborted?
    {
      if a.Peripheral? || a.h != h {
        OthersUnchanged(s, a, h);
      }
    }
    var log := Committed(s, a);
    if log != [] {
      assert log[..0] == [];
    }
  }

  lemma {:induction false} SerialAppend(m: Memory, log: seq<Commit>, more: seq<Commit>)
    ensures Serial(m, log + more) == Serial(Serial(m, log), more)
    decreases |more|
  {
    if more == [] {
      assert log + more == log;
    } else {
      var init := more[..|more| - 1];
      SerialAppend(m, log, init);
      assert (log + more)[..|log + more| - 1] == log + init;
    }
  }

  /** If no AMO translation stores a page table entry, every interleaving leaves the memory that executing the
      committed stores and whole read-modify-writes one after the other would leave, and no AMO aborts. */
  lemma {:induction false} AmosAreSerial(states: seq<State>, actions: seq<Action>, n: nat)
    requires IsRun(states, actions) && n <= |actions|
    requires QuietUntil(states, actions, n)
    ensures NoAmoWrote(states[n])
    ensures states[n].mem == Serial(states[0].mem, Log(states, actions, n))
  {
    if n > 0 {
      AmosAreSerial(states, actions, n - 1);
      assert StepAt(states, actions, n - 1);
      RunKeepsInv(states, actions, n - 1);
      QuietStep(states[n - 1], actions[n - 1]);
      SerialAppend(states[0].mem, Log(states, actions, n - 1), Committed(states[n - 1], actions[n - 1]));
    }
  }

  /** The value an AMO hands to its destination register is the one its read-modify-write finds in that order. */
  lemma {:induction false} AmoSeesSerialValue(states: seq<State>, actions: seq<Action>, n: nat)
    requires IsRun(states, actions) && n < |actions| && StepAt(states, actions, n) && actions[n].AmoWrite?
    requires QuietUntil(states, actions, n)
    ensures var st := states[n].harts[actions[n].h].stage;
            st.seen == Read(Serial(states[0].mem, Log(states, actions, n)), st.pa)
  {
    AmosAreSerial(states, actions, n);
    RunKeepsInv(states, actions, n);
    assert HartOk(states[n], actions[n].h);
  }

  /** The assertion before an AMO's store fails exactly when the translation of its load stored a page table entry. */
  lemma {:induction false} AmoAssertionIff(states: seq<State>, actions: seq<Action>, n: nat)
    requires IsRun(states, actions) && n < |actions| && StepAt(states, actions, n) && actions[n].AmoRead?
    ensures var h := actions[n].h;
            states[n + 1].harts[h].stage.Aborted? <==> states[n].harts[h].stage.wrote
  {
    RunKeepsInv(states, actions, n);
    assert HartOk(states[n], actions[n].h);
  }

  function AmoAdd(a: int, b: int): int { (a + b) % TWO32 }

  ghost predicate IsAdd(c: Commit) { c.Rmw? && c.op == AmoAdd }

  ghost predicate AllAdds(log: seq<Commit>) { forall i | 0 <= i < |log| :: IsAdd(log[i]) }

  /** The sum of the addends committed to pa. */
  function SumOf(log: seq<Commit>, pa: nat): int
    decreases |log|
  {
    if log == [] then 0
    else
      var last := log[|log| - 1];
      SumOf(log[..|log| - 1], pa) + (if last.Rmw? && last.pa == pa then last.operand else 0)
  }

  lemma {:induction false} ModAdd(a: int, b: int)
    ensures (a % TWO32 + b) % TWO32 == (a + b) % TWO32
  {
  }

  lemma {:induction false} SerialAddsUp(m: Memory, log: seq<Commit>, pa: nat)
    requires AllAdds(log)
    requires 0 <= Read(m, pa) < TWO32
    ensures Read(Serial(m, log), pa) == (Read(m, pa) + SumOf(log, pa)) % TWO32
    decreases |log|
  {
    if log != [] {
      var init, last := log[..|log| - 1], log[|log| - 1];
      assert IsAdd(last);
      SerialAddsUp(m, init, pa);
      var before := Serial(m, init);
      assert Serial(m, log) == before[last.pa := AmoAdd(Read(before, last.pa), last.operand)];
      if last.pa == pa {
        ModAdd(Read(m, pa) + SumOf(init, pa), last.operand);
      }
    }
  }

  /** Concurrent amoadds lose nothing: the word ends as its initial value plus all addends, modulo 2^32. */
  lemma {:induction false} AmoAddsAddUp(states: seq<State>, actions: seq<Action>, n: nat, pa: nat)
    requires IsRun(states, actions) && n <= |actions|
    requires QuietUntil(states, actions, n)
    requires AllAdds(Log(states, actions, n))
    requires 0 <= Read(states[0].mem, pa) < TWO32
    ensures Read(states[n].mem, pa) == (Read(states[0].mem, pa) + SumOf(Log(states, actions, n), pa)) % TWO32
  {
    var log := Log(states, actions, n);
    AmosAreSerial(states, actions, n);
    assert states[n].mem == Serial(states[0].mem, log);
    SerialAddsUp(states[0].mem, log, pa);
  }

  // ---------------------------------------------------------------- the lock is held briefly

  /** How many more instructions the owner can retire before it gives the lock back. */
  function Budget(hart: Hart): nat {
    if hart.counter == 0 then 16 else hart.counter - 1
  }

  lemma {:induction false} BudgetStep(s: State, a: Action, h: nat)
    requires Inv(s) && Enabled(s, a) && s.lock == Some(h) && Next(s, a).lock == Some(h)
    ensures Budget(Next(s, a).harts[h]) + (if a.Retire? && a.h == h then 1 else 0) <= Budget(s.harts[h])
  {
    assert HartOk(s, h);
    StepKeepsInv(s, a);
  }

  ghost function Retires(actions: seq<Action>, h: nat, from: nat, to: nat): nat
    requires from <= to <= |actions|
  {
    if from == to then 0
    else Retires(actions, h, from, to - 1) + (if actions[to - 1].Retire? && actions[to - 1].h == h then 1 else 0)
  }

  lemma {:induction false} BudgetIsSpent(states: seq<State>, actions: seq<Action>, h: nat, from: nat, to: nat)
    requires IsRun(states, actions) && from <= to <= |actions|
    requires forall k | from <= k <= to :: states[k].lock == Some(h)
    ensures h < |states[from].harts| && h < |states[to].harts|
    ensures Retires(actions, h, from, to) + Budget(states[to].harts[h]) <= Budget(states[from].harts[h])
  {
    RunKeepsInv(states, actions, to);
    if from < to {
      BudgetIsSpent(states, actions, h, from, to - 1);
      RunKeepsInv(states, actions, to - 1);
      var s, a := states[to - 1], actions[to - 1];
      assert StepAt(states, actions, to - 1);
      BudgetStep(s, a, h);
    }
  }

  /** At an instruction boundary the owner's countdown is between 1 and 16, and however the other harts interleave,
      nobody keeps the lock for more than 16 of its own instructions. */
  lemma {:induction false} LockIsHeldBriefly(states: seq<State>, actions: seq<Action>, h: nat, from: nat, to: nat)
    requires IsRun(states, actions) && from <= to <= |actions|
    requires forall k | from <= k <= to :: states[k].lock == Some(h)
    ensures h < |states[from].harts|
    ensures states[from].harts[h].stage.Boundary? ==> 1 <= states[from].harts[h].counter <= 16
    ensures Retires(actions, h, from, to) <= 16
    ensures states[from].harts[h].stage.Boundary? ==> Retires(actions, h, from, to) < states[from].harts[h].counter
  {
    RunKeepsInv(states, actions, from);
    assert HartOk(states[from], h);
    BudgetIsSpent(states, actions, h, from, to);
  }

  // ---------------------------------------------------------------- when a store-conditional passes

  /** What a hart must not do between its load-reserved and its store-conditional. */
  predicate Breaks(a: Action) {
    a.Store? || a.PteStore? || a.Trap? || a.Wfi? || a.ScCheck? || a.AmoLock? || a.LrLock?
  }

  /** At step j hart h reserves va; until step n it does nothing that breaks the reservation, and it retires no more
      instructions than its countdown allows: 16, or what was left of an earlier reservation's. */
  ghost predicate Reserves(states: seq<State>, actions: seq<Action>, j: nat, n: nat, h: nat, va: nat)
    requires |states| == |actions| + 1 && n <= |actions|
  {
    && j < n && actions[j] == LrLock(h, va) && h < |states[j].harts|
    && (forall k | j < k < n :: !actions[k].Peripheral? && actions[k].h == h ==> !Breaks(actions[k]))
    && Retires(actions, h, j + 1, n) <= Budget(states[j].harts[h])
  }

  /** The state of h while its reservation stands; total is the countdown that the load-reserved leaves, used what has been
      retired of it. */
  predicate Standing(s: State, h: nat, va: nat, counter: nat, used: nat) {
    && h < |s.harts| && s.lock == Some(h) && s.harts[h].lrAddr == va
    && var hart := s.harts[h];
       if hart.stage.LrLoad? then hart.counter == counter && used == 0
       else
         && (hart.stage.Boundary? || hart.stage.Running? || hart.stage.Retiring?)
         && hart.counter + used == (if counter == 0 then 17 else counter)
  }

  lemma {:induction false} StandingStep(s: State, a: Action, h: nat, va: nat, counter: nat, used: nat)
    requires Inv(s) && Enabled(s, a) && Standing(s, h, va, counter, used)
    requires !a.Peripheral? && a.h == h ==> !Breaks(a)
    requires a.Retire? && a.h == h ==> used + 1 <= if counter == 0 then 16 else counter - 1
    ensures Standing(Next(s, a), h, va, counter, used + if a.Retire? && a.h == h then 1 else 0)
  {
    if a.Peripheral? || a.h != h {
      StepKeepsOther(s, a, h);
      OthersUnchanged(s, a, h);
    }
  }

  lemma {:induction false} StaysStanding(states: seq<State>, actions: seq<Action>, j: nat, n: nat, h: nat, va: nat)
    requires IsRun(states, actions) && n <= |actions| && Reserves(states, actions, j, n, h, va)
    ensures Standing(states[n], h, va, states[j].harts[h].counter, Retires(actions, h, j + 1, n))
  {
    RunKeepsInv(states, actions, n - 1);
    assert StepAt(states, actions, n - 1);
    if j < n - 1 {
      assert Reserves(states, actions, j, n - 1, h, va);
      StaysStanding(states, actions, j, n - 1, h, va);
      StandingStep(states[n - 1], actions[n - 1], h, va, states[j].harts[h].counter, Retires(actions, h, j + 1, n - 1));
    }
  }

  lemma {:induction false} ReservedStep(s: State, a: Action, h: nat)
    requires Inv(s) && Enabled(s, a) && Reserved(Next(s, a), h) && !(a.LrLock? && a.h == h)
    requires !Next(s, a).harts[h].stage.ScStore?
    ensures Reserved(s, h) && !s.harts[h].stage.ScStore? && (!a.Peripheral? && a.h == h ==> !Breaks(a))
    ensures Next(s, a).harts[h].lrAddr == s.harts[h].lrAddr
  {
    assert HartOk(s, h);
    ReservationStep(s, a, h);
  }

  lemma {:induction false} ReservationMade(states: seq<State>, actions: seq<Action>, n: nat, h: nat) returns (j: nat)
    requires IsRun(states, actions) && n <= |actions| && Reserved(states[n], h) && !states[n].harts[h].stage.ScStore?
    ensures j < n && actions[j] == LrLock(h, states[n].harts[h].lrAddr)
    ensures forall k | j < k < n :: !actions[k].Peripheral? && actions[k].h == h ==> !Breaks(actions[k])
    ensures forall k | j < k <= n :: states[k].lock == Some(h)
  {
    assert n > 0;
    var s, a := states[n - 1], actions[n - 1];
    RunKeepsInv(states, actions, n - 1);
    assert StepAt(states, actions, n - 1);
    if a.LrLock? && a.h == h {
      j := n - 1;
    } else {
      ReservedStep(s, a, h);
      j := ReservationMade(states, actions, n - 1, h);
    }
  }

  /** A store-conditional passes its check if and only if its hart has reserved that address, has since done nothing that
      breaks the reservation, and has not used up its countdown; whatever the other harts and the peripherals do. */
  lemma {:induction false} ScPassesIff(states: seq<State>, actions: seq<Action>, n: nat)
    requires IsRun(states, actions) && n < |actions| && StepAt(states, actions, n) && actions[n].ScCheck?
    ensures states[n + 1].harts[actions[n].h].stage.ScStore? <==>
            exists j: nat :: Reserves(states, actions, j, n, actions[n].h, actions[n].va)
  {
    var h, va := actions[n].h, actions[n].va;
    if states[n + 1].harts[h].stage.ScStore? {
      var j := ReservationMade(states, actions, n, h);
      RunKeepsInv(states, actions, j);
      assert StepAt(states, actions, j);
      BudgetIsSpent(states, actions, h, j + 1, n);
      assert Reserves(states, actions, j, n, h, va);
    }
    forall j: nat | Reserves(states, actions, j, n, h, va)
      ensures states[n + 1].harts[h].stage.ScStore?
    {
      StaysStanding(states, actions, j, n, h, va);
    }
  }

  // ---------------------------------------------------------------- the owner moves on

  /** A step of h that is always open to it when it owns the lock. */
  function OwnStep(s: State, h: nat): Action
    requires h < |s.harts|
  {
    match s.harts[h].stage
    case Boundary => Begin(h)
    case Running => Finish(h)
    case LrLoad => LrRead(h, 0)
    case ScStore(_, _) => ScWrite(h, 0)
    case AmoLoad(_, _, _) => AmoRead(h, 0)
    case AmoStore(_, _, _, _, _) => AmoWrite(h)
    case Retiring => Retire(h, true)
    case Asleep => Wake(h)
    case Syncing => Synced(h)
    case Aborted => Begin(h)
  }

  /** The owner never waits: it is not parked in WFI or in a sync, it has not aborted, and the lock admits it. */
  lemma {:induction false} OwnerNeverWaits(states: seq<State>, actions: seq<Action>, n: nat, h: nat)
    requires IsRun(states, actions) && n <= |actions| && states[n].lock == Some(h)
    ensures h < |states[n].harts|
    ensures var st := states[n].harts[h].stage; !st.Asleep? && !st.Syncing? && !st.Aborted?
    ensures Enabled(states[n], OwnStep(states[n], h))
  {
    RunKeepsInv(states, actions, n);
  }

  function Position(st: Stage): nat {
    match st
    case Boundary => 4
    case Running => 3
    case AmoLoad(_, _, _) => 3
    case Retiring => 1
    case _ => 2
  }

  /** Left to itself, the owner reaches a state in which the lock is free. */
  lemma {:induction false} OwnerReleases(s: State, h: nat) returns (actions: seq<Action>, s': State)
    requires Inv(s) && s.lock == Some(h)
    ensures Inv(s') && s'.lock.None?
    ensures forall a | a in actions :: !a.Peripheral? && a.h == h
    ensures Leads(s, actions, s')
    decreases Budget(s.harts[h]), Position(s.harts[h].stage)
  {
    var a := OwnStep(s, h);
    assert HartOk(s, h);
    StepKeepsInv(s, a);
    var t := Next(s, a);
    if t.lock == Some(h) {
      BudgetStep(s, a, h);
      var rest, u := OwnerReleases(t, h);
      actions, s' := [a] + rest, u;
      assert actions[1..] == rest;
    } else {
      actions, s' := [a], t;
      assert Leads(t, [], t);
      assert actions[1..] == [];
    }
  }

  ghost predicate Leads(s: State, actions: seq<Action>, s': State)
    decreases |actions|
  {
    if actions == [] then s == s'
    else Enabled(s, actions[0]) && Leads(Next(s, actions[0]), actions[1..], s')
  }

  // ---------------------------------------------------------------- without the lock

  ghost predicate OthersOnly(actions: seq<Action>, h: nat) {
    forall a | a in actions :: a.Peripheral? || a.h != h
  }

  lemma {:induction false} LeadsAppend(s: State, actions: seq<Action>, s': State, a: Action)
    requires Leads(s, actions, s') && Enabled(s', a)
    ensures Leads(s, actions + [a], Next(s', a))
    decreases |actions|
  {
    if actions == [] {
      assert [a][1..] == [] && Leads(Next(s, a), [], Next(s, a));
    } else {
      LeadsAppend(Next(s, actions[0]), actions[1..], s', a);
      assert (actions + [a])[1..] == actions[1..] + [a];
    }
  }

  /** While h owns the lock, whatever the others do leaves memory, the lock and h itself as they are. */
  lemma {:induction false} OthersChangeNothing(s: State, actions: seq<Action>, s': State, h: nat)
    requires Inv(s) && h < |s.harts| && Leads(s, actions, s') && OthersOnly(actions, h)
    ensures Inv(s') && |s'.harts| == |s.harts| && s'.harts[h] == s.harts[h]
    ensures s.lock == Some(h) ==> s'.lock == Some(h) && s'.mem == s.mem
    decreases |actions|
  {
    if actions != [] {
      var a := actions[0];
      assert a in actions;
      StepKeepsInv(s, a);
      StepKeepsOther(s, a, h);
      OthersUnchanged(s, a, h);
      OthersChangeNothing(Next(s, a), actions[1..], s', h);
    }
  }

  /** While h does not own the lock, the others can bring about any value of any word. */
  lemma {:induction false} OthersCanStore(s: State, h: nat, pa: nat, v: int) returns (actions: seq<Action>, s': State)
    requires Inv(s) && h < |s.harts| && s.lock != Some(h)
    ensures Leads(s, actions, s') && OthersOnly(actions, h)
    ensures s'.lock.None? && Read(s'.mem, pa) == v && |s'.harts| == |s.harts| && s'.harts[h] == s.harts[h]
  {
    actions, s' := [], s;
    if s.lock.Some? {
      actions, s' := OwnerReleases(s, s.lock.value);
      assert OthersOnly(actions, h);
    }
    OthersChangeNothing(s, actions, s', h);
    LeadsAppend(s, actions, s', Peripheral(pa, v));
    actions, s' := actions + [Peripheral(pa, v)], Next(s', Peripheral(pa, v));
  }

  /** Whatever the others do first, the AMO of h writes what its operation makes of the word that is there. */
  ghost predicate AmoIsAtomic(s: State, h: nat)
    requires h < |s.harts| && s.harts[h].stage.AmoStore?
  {
    forall actions, s' | Leads(s, actions, s') && OthersOnly(actions, h) && Enabled(s', AmoWrite(h)) ::
      Read(s'.mem, s.harts[h].stage.pa) == s.harts[h].stage.seen
  }

  /** An AMO about to store is a true read-modify-write in every continuation if and only if the translation of its store
      has stored no page table entry. The assertion has passed in either case. */
  lemma {:induction false} AmoIsAtomicIff(s: State, h: nat)
    requires Inv(s) && h < |s.harts| && s.harts[h].stage.AmoStore?
    ensures AmoIsAtomic(s, h) <==> !s.harts[h].stage.wrote
  {
    var st := s.harts[h].stage;
    assert HartOk(s, h);
    if st.wrote {
      var actions, s' := OthersCanStore(s, h, st.pa, st.seen + 1);
      assert Enabled(s', AmoWrite(h));
    } else {
      forall actions, s' | Leads(s, actions, s') && OthersOnly(actions, h) && Enabled(s', AmoWrite(h))
        ensures Read(s'.mem, st.pa) == st.seen
      {
        OthersChangeNothing(s, actions, s', h);
      }
    }
  }

  /** Whatever the others do first, the store-conditional of h finds memory as its check found it. */
  ghost predicate ScIsAtomic(s: State, h: nat)
    requires h < |s.harts| && s.harts[h].stage.ScStore?
  {
    forall actions, s', pa | Leads(s, actions, s') && OthersOnly(actions, h) && Enabled(s', ScWrite(h, pa)) ::
      Read(s'.mem, pa) == Read(s.mem, pa)
  }

  /** The same for a store-conditional that has passed its check. */
  lemma {:induction false} ScIsAtomicIff(s: State, h: nat)
    requires Inv(s) && h < |s.harts| && s.harts[h].stage.ScStore?
    ensures ScIsAtomic(s, h) <==> !s.harts[h].stage.wrote
  {
    assert HartOk(s, h);
    if s.harts[h].stage.wrote {
      var actions, s' := OthersCanStore(s, h, 0, Read(s.mem, 0) + 1);
      assert Enabled(s', ScWrite(h, 0));
    } else {
      forall actions, s', pa | Leads(s, actions, s') && OthersOnly(actions, h) && Enabled(s', ScWrite(h, pa))
        ensures Read(s'.mem, pa) == Read(s.mem, pa)
      {
        OthersChangeNothing(s, actions, s', h);
      }
    }
  }

  // ---------------------------------------------------------------- three runs of one hart with one peripheral

  const START := State(None, map[], [Hart(Boundary, 0, 0)])

  /** A run grows by one step. */
  lemma {:induction false} Extend(states: seq<State>, actions: seq<Action>, a: Action, s': State)
    requires IsRun(states, actions) && Enabled(states[|actions|], a) && s' == Next(states[|actions|], a)
    ensures IsRun(states + [s'], actions + [a])
  {
    forall k: nat | k < |actions + [a]|
      ensures StepAt(states + [s'], actions + [a], k)
    {
      if k < |actions| {
        assert StepAt(states, actions, k);
      }
    }
  }

  ghost predicate StepThrough(s: State, more: seq<Action>, through: seq<State>, k: nat)
    requires k < |more| == |through|
  {
    var before := if k == 0 then s else through[k - 1];
    Enabled(before, more[k]) && through[k] == Next(before, more[k])
  }

  /** A run goes on with the given actions through the given states. */
  lemma {:induction false} Continue(states: seq<State>, actions: seq<Action>, more: seq<Action>, through: seq<State>)
    requires IsRun(states, actions) && |through| == |more|
    requires forall k: nat | k < |more| :: StepThrough(states[|actions|], more, through, k)
    ensures IsRun(states + through, actions + more)
    decreases |more|
  {
    if more == [] {
      assert states + through == states && actions + more == actions;
    } else {
      var n := |more| - 1;
      forall k: nat | k < n
        ensures StepThrough(states[|actions|], more[..n], through[..n], k)
      {
        assert StepThrough(states[|actions|], more, through, k);
      }
      Continue(states, actions, more[..n], through[..n]);
      assert StepThrough(states[|actions|], more, through, n);
      Extend(states + through[..n], actions + more[..n], more[n], through[n]);
      assert states + through[..n] + [through[n]] == states + through;
      assert actions + more[..n] + [more[n]] == actions + more;
    }
  }

  lemma {:induction false} Starts()
    ensures IsRun([START], [])
  {
    assert Init(START);
  }

  /** The AMO's store sets the D bit of its page: the assertion passes, the lock goes, and the peripheral's 5 is lost
      without notice. */
  lemma {:induction false} AmoLosesUpdate() returns (states: seq<State>, actions: seq<Action>)
    ensures IsRun(states, actions)
    ensures actions == [Begin(0), AmoLock(0, AmoAdd, 1), AmoRead(0, 4), PteStore(0, 8, 1), Peripheral(4, 5), AmoWrite(0)]
    ensures Read(states[6].mem, 4) == 1
  {
    actions := [Begin(0), AmoLock(0, AmoAdd, 1), AmoRead(0, 4), PteStore(0, 8, 1), Peripheral(4, 5), AmoWrite(0)];
    var through := [
      State(None, map[], [Hart(Running, 0, 0)]),
      State(Some(0), map[], [Hart(AmoLoad(AmoAdd, 1, false), 0, 0)]),
      State(Some(0), map[], [Hart(AmoStore(4, AmoAdd, 1, 0, false), 0, 0)]),
      State(None, map[8 := 1], [Hart(AmoStore(4, AmoAdd, 1, 0, true), 0, 0)]),
      State(None, map[8 := 1, 4 := 5], [Hart(AmoStore(4, AmoAdd, 1, 0, true), 0, 0)]),
      State(None, map[8 := 1, 4 := 1], [Hart(Retiring, 0, 0)])];
    Starts();
    Continue([START], [], actions, through);
    states := [START] + through;
    assert [] + actions == actions;
  }

  /** The AMO's load sets the A bit of its page: the assertion fails. */
  lemma {:induction false} AmoAborts() returns (states: seq<State>, actions: seq<Action>)
    ensures IsRun(states, actions)
    ensures actions == [Begin(0), AmoLock(0, AmoAdd, 1), PteStore(0, 8, 1), AmoRead(0, 4)]
    ensures states[4].harts == [Hart(Aborted, 0, 0)]
  {
    actions := [Begin(0), AmoLock(0, AmoAdd, 1), PteStore(0, 8, 1), AmoRead(0, 4)];
    var through := [
      State(None, map[], [Hart(Running, 0, 0)]),
      State(Some(0), map[], [Hart(AmoLoad(AmoAdd, 1, false), 0, 0)]),
      State(None, map[8 := 1], [Hart(AmoLoad(AmoAdd, 1, true), 0, 0)]),
      State(None, map[8 := 1], [Hart(Aborted, 0, 0)])];
    Starts();
    Continue([START], [], actions, through);
    states := [START] + through;
    assert [] + actions == actions;
  }

  /** A load-reserved on word 4, to the end of its instruction. */
  lemma {:induction false} ReservesWord() returns (states: seq<State>, actions: seq<Action>)
    ensures IsRun(states, actions)
    ensures actions == [Begin(0), LrLock(0, 4), LrRead(0, 4), Retire(0, false)]
    ensures states[4] == State(Some(0), map[], [Hart(Boundary, 4, 16)])
  {
    actions := [Begin(0), LrLock(0, 4), LrRead(0, 4), Retire(0, false)];
    var through := [
      State(None, map[], [Hart(Running, 0, 0)]),
      State(Some(0), map[], [Hart(LrLoad, 4, 0)]),
      State(Some(0), map[], [Hart(Retiring, 4, 17)]),
      State(Some(0), map[], [Hart(Boundary, 4, 16)])];
    Starts();
    Continue([START], [], actions, through);
    states := [START] + through;
    assert [] + actions == actions;
  }

  /** Its store-conditional passes the check, sets the D bit of its page, and overwrites what the peripheral stores before
      it: it succeeds although the word was written since the load-reserved. */
  lemma {:induction false} ScOverwrites() returns (states: seq<State>, actions: seq<Action>)
    ensures IsRun(states, actions) && |actions| == 9
    ensures actions[..4] == [Begin(0), LrLock(0, 4), LrRead(0, 4), Retire(0, false)]
    ensures actions[4..] == [Begin(0), ScCheck(0, 4, 7), PteStore(0, 8, 1), Peripheral(4, 5), ScWrite(0, 4)]
    ensures Read(states[8].mem, 4) == 5 && Read(states[9].mem, 4) == 7
  {
    states, actions := ReservesWord();
    var more := [Begin(0), ScCheck(0, 4, 7), PteStore(0, 8, 1), Peripheral(4, 5), ScWrite(0, 4)];
    var through := [
      State(Some(0), map[], [Hart(Running, 4, 16)]),
      State(Some(0), map[], [Hart(ScStore(7, false), 4, 16)]),
      State(None, map[8 := 1], [Hart(ScStore(7, true), 4, 16)]),
      State(None, map[8 := 1, 4 := 5], [Hart(ScStore(7, true), 4, 16)]),
      State(None, map[8 := 1, 4 := 7], [Hart(Retiring, 4, 0)])];
    Continue(states, actions, more, through);
    states, actions := states + through, actions + more;
  }
}
