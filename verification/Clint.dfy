/**
 The CLINT timer: deadline scheduling for any number of harts on one SystemC event. Time is in picoseconds; an event
 that is notified again keeps the earlier of the two times (section 5.10.8 of IEEE 1666-2011).
 */
module Clint {
  import opened Bits
  import opened Wrappers

  const SCALER: nat := 1_000_000
  const NEVER: nat := TWO64 - 1

  /** raised: the timer interrupt line of each hart. fresh writes of mtimecmp that run has not seen yet are dirty, and
      due is the time at which the write asked to be seen. */
  datatype State = State(
    now: nat, mtime: nat, cmp: seq<nat>, raised: seq<bool>, pending: Option<nat>, dirty: seq<bool>, due: seq<nat>)

  predicate Shape(s: State) { |s.cmp| == |s.raised| == |s.dirty| == |s.due| }

  function Earliest(p: Option<nat>, t: nat): Option<nat> {
    if p.Some? && p.value <= t then p else Some(t)
  }

  function Updated(s: State): nat { if s.now / SCALER > s.mtime then s.now / SCALER else s.mtime }

  predicate IsDue(mtime: nat, cmp: nat) { cmp > 0 && mtime >= cmp }

  predicate NeedsWakeup(mtime: nat, cmp: nat) { !IsDue(mtime, cmp) && 0 < cmp < NEVER }

  /** goal - time, with both products and the difference in 64 bits */
  function Delay(mtime: nat, cmp: nat): nat {
    (cmp * SCALER % TWO64 - mtime * SCALER % TWO64) % TWO64
  }

  /** The event after the loop over the first n harts. */
  function WakeupFor(now: nat, mtime: nat, cmp: seq<nat>, n: nat): Option<nat>
    requires n <= |cmp|
  {
    if n == 0 then None
    else
      var p := WakeupFor(now, mtime, cmp, n - 1);
      if NeedsWakeup(mtime, cmp[n - 1]) then Earliest(p, now + Delay(mtime, cmp[n - 1])) else p
  }

  /** One turn of CLINT::run after the event has fired. */
  function Fire(s: State): State
    requires Shape(s)
  {
    var m := Updated(s);
    s.(mtime := m,
       raised := seq(|s.cmp|, i requires 0 <= i < |s.cmp| => IsDue(m, s.cmp[i])),
       pending := WakeupFor(s.now, m, s.cmp, |s.cmp|),
       dirty := seq(|s.cmp|, i => false))
  }

  datatype Action =
    | WriteCmp(hart: nat, value: nat, delay: nat)
    | ReadMtime(delay: nat)
    | ReadTimeCsr
    | Advance(to: nat)
    | Run

  /** delay is how far a hart's local time runs ahead of the simulation, at most ahead. A comparand has 64 bits. Time
      never passes a pending event. */
  predicate Enabled(s: State, a: Action, ahead: nat) {
    match a
    case WriteCmp(i, v, delay) => i < |s.cmp| && delay <= ahead && v < TWO64
    case ReadMtime(delay) => delay <= ahead
    case ReadTimeCsr => true
    case Advance(to) => to > s.now && (s.pending.Some? ==> to <= s.pending.value)
    case Run => s.pending == Some(s.now)
  }

  function Next(s: State, a: Action, ahead: nat): State
    requires Shape(s) && Enabled(s, a, ahead)
  {
    match a
    case WriteCmp(i, v, delay) =>
      s.(cmp := s.cmp[i := v], dirty := s.dirty[i := true], due := s.due[i := s.now + delay],
         pending := Earliest(s.pending, s.now + delay))
    case ReadMtime(delay) => s.(mtime := (s.now + delay) / SCALER)
    case ReadTimeCsr => s.(mtime := Updated(s))
    case Advance(to) => s.(now := to)
    case Run => Fire(s)
  }

  predicate Init(s: State) {
    && Shape(s) && s.now == 0 && s.mtime == 0 && s.pending == None
    && forall i | 0 <= i < |s.cmp| :: s.cmp[i] == 0 && !s.raised[i] && !s.dirty[i]
  }

  // ---------------------------------------------------------------- the invariant

  /** Hart i either awaits run, which comes by the time its write asked for; or has its interrupt raised, at most
      `ahead` before the comparand's time; or has a wake-up pending before the tick after it. */
  predicate HartOk(s: State, i: nat, ahead: nat)
    requires Shape(s) && i < |s.cmp|
  {
    && (s.dirty[i] ==> s.pending.Some? && s.pending.value <= s.due[i])
    && (!s.dirty[i] && s.raised[i] ==> 0 < s.cmp[i] && s.cmp[i] * SCALER <= s.now + ahead)
    && (!s.dirty[i] && !s.raised[i] && 0 < s.cmp[i] < NEVER ==>
          s.pending.Some? && s.pending.value < (s.cmp[i] + 1) * SCALER)
  }

  predicate Inv(s: State, ahead: nat) {
    && Shape(s)
    && (s.pending.Some? ==> s.pending.value >= s.now)
    && s.mtime * SCALER <= s.now + ahead
    && forall i | 0 <= i < |s.cmp| :: HartOk(s, i, ahead)
  }

  /** The wrapped difference of the wrapped products is the wrapped product of the difference. */
  lemma {:induction false} DelayIsWrapped(mtime: nat, cmp: nat)
    requires mtime <= cmp
    ensures Delay(mtime, cmp) == (cmp - mtime) * SCALER % TWO64 <= (cmp - mtime) * SCALER
  {
    var a, b := cmp * SCALER, mtime * SCALER;
    AddMultiple(a % TWO64 - b % TWO64, TWO64, a / TWO64 - b / TWO64);
    ModLe(a - b, TWO64);
  }

  /** Scheduled from an mtime that is not behind, the wake-up comes before the tick after the comparand: wrapping around
      only brings it forward. */
  lemma {:induction false} DelayIsTight(now: nat, mtime: nat, cmp: nat)
    requires mtime < cmp && now / SCALER <= mtime
    ensures now + Delay(mtime, cmp) < (cmp + 1) * SCALER
  {
    DelayIsWrapped(mtime, cmp);
  }

  lemma {:induction false} WakeupCovers(now: nat, mtime: nat, cmp: seq<nat>, n: nat, i: nat)
    requires i < n <= |cmp|
    requires NeedsWakeup(mtime, cmp[i])
    ensures WakeupFor(now, mtime, cmp, n).Some?
    ensures WakeupFor(now, mtime, cmp, n).value <= now + Delay(mtime, cmp[i])
  {
    if i < n - 1 {
      WakeupCovers(now, mtime, cmp, n - 1, i);
    }
  }

  lemma {:induction false} WakeupNotPast(now: nat, mtime: nat, cmp: seq<nat>, n: nat)
    requires n <= |cmp|
    ensures WakeupFor(now, mtime, cmp, n).Some? ==> WakeupFor(now, mtime, cmp, n).value >= now
  {
    if n > 0 {
      WakeupNotPast(now, mtime, cmp, n - 1);
    }
  }

  lemma {:induction false} FireKeepsInv(s: State, ahead: nat)
    requires Inv(s, ahead)
    ensures Inv(Fire(s), ahead)
  {
    var s' := Fire(s);
    var m := s'.mtime;
    WakeupNotPast(s.now, m, s.cmp, |s.cmp|);
    forall i | 0 <= i < |s.cmp|
      ensures HartOk(s', i, ahead)
    {
      assert HartOk(s, i, ahead);
      var c := s.cmp[i];
      if IsDue(m, c) {
        assert c * SCALER <= m * SCALER;
      } else if 0 < c < NEVER {
        DelayIsTight(s.now, m, c);
        WakeupCovers(s.now, m, s.cmp, |s.cmp|, i);
      }
    }
  }

  lemma {:induction false} StepKeepsInv(s: State, a: Action, ahead: nat)
    requires Inv(s, ahead) && Enabled(s, a, ahead)
    ensures Inv(Next(s, a, ahead), ahead)
  {
    if a == Run {
      FireKeepsInv(s, ahead);
    } else {
      var s' := Next(s, a, ahead);
      forall i | 0 <= i < |s'.cmp|
        ensures HartOk(s', i, ahead)
      {
        assert HartOk(s, i, ahead);
      }
    }
  }

  // ---------------------------------------------------------------- runs

  ghost predicate StepAt(states: seq<State>, actions: seq<Action>, ahead: nat, k: nat)
    requires k < |actions| && |states| == |actions| + 1
  {
    Shape(states[k]) && Enabled(states[k], actions[k], ahead) && states[k + 1] == Next(states[k], actions[k], ahead)
  }

  ghost predicate IsRun(states: seq<State>, actions: seq<Action>, ahead: nat) {
    && |states| == |actions| + 1
    && Init(states[0])
    && forall k: nat | k < |actions| :: StepAt(states, actions, ahead, k)
  }

  lemma {:induction false} RunKeepsInv(states: seq<State>, actions: seq<Action>, ahead: nat, n: nat)
    requires IsRun(states, actions, ahead) && n <= |actions|
    ensures Inv(states[n], ahead)
  {
    if n > 0 {
      RunKeepsInv(states, actions, ahead, n - 1);
      assert StepAt(states, actions, ahead, n - 1);
      StepKeepsInv(states[n - 1], actions[n - 1], ahead);
    }
  }

  /** In every run, for every hart whose write has been processed: while its interrupt is not raised a wake-up is
      pending before the tick after its comparand; so the interrupt is raised less than one tick late, and at most
      `ahead` early. A write is processed by the time it asked for. */
  lemma {:induction false} TimerIsPunctual(states: seq<State>, actions: seq<Action>, ahead: nat, n: nat, i: nat)
    requires IsRun(states, actions, ahead) && n <= |actions| && i < |states[n].cmp|
    ensures Shape(states[n])
    ensures var s := states[n];
            && (s.dirty[i] ==> s.now <= s.due[i])
            && (!s.dirty[i] && 0 < s.cmp[i] < NEVER && !s.raised[i] ==>
                  s.pending.Some? && s.now <= s.pending.value < (s.cmp[i] + 1) * SCALER)
            && (!s.dirty[i] && 0 < s.cmp[i] < NEVER && s.now >= (s.cmp[i] + 1) * SCALER ==> s.raised[i])
            && (!s.dirty[i] && s.raised[i] ==> s.cmp[i] * SCALER <= s.now + ahead)
  {
    RunKeepsInv(states, actions, ahead, n);
    assert HartOk(states[n], i, ahead);
  }

  /** What is read: after a read of mtime it is the whole number of ticks up to the reader's local time, and after a read of
      the time CSR it has all ticks of the simulated time, and no more than `ahead` allows. */
  lemma {:induction false} ReadIsCurrent(states: seq<State>, actions: seq<Action>, ahead: nat, n: nat)
    requires IsRun(states, actions, ahead) && n < |actions| && StepAt(states, actions, ahead, n)
    ensures var t := states[n + 1].mtime;
            && (actions[n].ReadMtime? ==>
                  t * SCALER <= states[n].now + actions[n].delay < (t + 1) * SCALER && states[n].now < (t + 1) * SCALER)
            && (actions[n].ReadTimeCsr? ==> states[n].now < (t + 1) * SCALER && t * SCALER <= states[n].now + ahead)
  {
    RunKeepsInv(states, actions, ahead, n + 1);
  }

  // ---------------------------------------------------------------- progress

  /** SCALER is 64 * 15625, and 64 * 2^58 wraps around to 0. */
  const WRAP: nat := 0x400_0000_0000_0000

  lemma {:induction false} OddFactor(d: nat)
    requires 15625 * d % WRAP == 0
    ensures d % WRAP == 0
  {
    var inverse: nat := 76480200929599801;
    assert 15625 * inverse == 1 + 4146 * WRAP;
    var q := 15625 * d / WRAP;
    assert inverse * (15625 * d) == (15625 * inverse) * d == d + 4146 * WRAP * d;
    assert d == WRAP * (inverse * q - 4146 * d);
    Multiple(d, inverse * q - 4146 * d);
  }

  lemma {:induction false} FactorOut(d: nat)
    ensures d * SCALER % TWO64 == 0 <==> 15625 * d % WRAP == 0
  {
    var x := 15625 * d;
    QuotientIs(64 * x, TWO64, x / WRAP, 64 * (x % WRAP));
  }

  lemma {:induction false} Multiple(d: nat, q: int)
    requires d == WRAP * q
    ensures d % WRAP == 0
  {
  }

  /** The wake-up for a comparand is asked for at once exactly when it lies a multiple of 2^58 ticks ahead. */
  lemma {:induction false} DelayIsZeroIff(mtime: nat, cmp: nat)
    requires mtime < cmp
    ensures Delay(mtime, cmp) == 0 <==> (cmp - mtime) % WRAP == 0
  {
    var d := cmp - mtime;
    DelayIsWrapped(mtime, cmp);
    FactorOut(d);
    if 15625 * d % WRAP == 0 {
      OddFactor(d);
    } else if d % WRAP == 0 {
      Multiple(15625 * d, 15625 * (d / WRAP));
    }
  }

  predicate Spins(mtime: nat, cmp: nat) { NeedsWakeup(mtime, cmp) && (cmp - mtime) % WRAP == 0 }

  lemma {:induction false} WakeupIsNowIff(now: nat, mtime: nat, cmp: seq<nat>, n: nat)
    requires n <= |cmp|
    ensures WakeupFor(now, mtime, cmp, n) == Some(now) <==> exists i: nat :: i < n && Spins(mtime, cmp[i])
  {
    if n > 0 {
      WakeupIsNowIff(now, mtime, cmp, n - 1);
      WakeupNotPast(now, mtime, cmp, n - 1);
      if NeedsWakeup(mtime, cmp[n - 1]) {
        DelayIsZeroIff(mtime, cmp[n - 1]);
      }
    }
  }

  /** After a turn of run, time can pass if and only if no hart that needs a wake-up has its comparand a multiple of 2^58
      ticks ahead. */
  lemma {:induction false} TimePassesIff(s: State, ahead: nat)
    requires Shape(s)
    ensures (exists to :: Enabled(Fire(s), Advance(to), ahead))
            <==> !exists i: nat :: i < |s.cmp| && Spins(Updated(s), s.cmp[i])
  {
    var m := Updated(s);
    WakeupIsNowIff(s.now, m, s.cmp, |s.cmp|);
    WakeupNotPast(s.now, m, s.cmp, |s.cmp|);
    if Fire(s).pending != Some(s.now) {
      assert Enabled(Fire(s), Advance(s.now + 1), ahead);
    }
  }

  /** Otherwise the device repeats the same turn: until a hart acts, only Run is possible, and it changes nothing. */
  lemma {:induction false} SpinsForever(s: State, a: Action, ahead: nat)
    requires Shape(s) && Fire(s).pending == Some(s.now)
    requires Enabled(Fire(s), a, ahead) && (a.Run? || a.Advance?)
    ensures a == Run && Next(Fire(s), a, ahead) == Fire(s)
  {
    FireTwice(s);
  }

  lemma {:induction false} FireTwice(s: State)
    requires Shape(s)
    ensures Fire(Fire(s)) == Fire(s)
  {
    var f := Fire(s);
    assert f.raised == Fire(f).raised && f.dirty == Fire(f).dirty;
  }

  /** One hart writes 2^58 at time zero, and run goes round n times without time passing. */
  lemma {:induction false} OverflowLivelock(ahead: nat, n: nat) returns (states: seq<State>, actions: seq<Action>)
    ensures IsRun(states, actions, ahead) && |actions| == n + 2
    ensures actions[0] == WriteCmp(0, WRAP, 0) && forall k | 1 <= k < n + 2 :: actions[k] == Run
    ensures states[n + 2].now == 0 && forall to :: !Enabled(states[n + 2], Advance(to), ahead)
  {
    var s0 := State(0, 0, [0], [false], None, [false], [0]);
    var s1 := Next(s0, WriteCmp(0, WRAP, 0), ahead);
    var s2 := Fire(s1);
    assert Spins(Updated(s1), s1.cmp[0]);
    WakeupIsNowIff(0, 0, s1.cmp, 1);
    FireTwice(s1);
    states := [s0, s1] + seq(n + 1, _ => s2);
    actions := [WriteCmp(0, WRAP, 0)] + seq(n + 1, _ => Run);
    forall k: nat | k < |actions|
      ensures StepAt(states, actions, ahead, k)
    {
    }
  }

  // ---------------------------------------------------------------- the object

  class Clint {
    var now: nat
    var mtime: nat
    var mtimecmp: seq<nat>
    var timerInterrupt: seq<bool>
    var irqEvent: Option<nat>

    ghost predicate Shows(s: State)
      reads this
    {
      && now == s.now && mtime == s.mtime && mtimecmp == s.cmp
      && timerInterrupt == s.raised && irqEvent == s.pending
    }

    method UpdateAndGetMtime() returns (t: nat)
      modifies this`mtime
      ensures t == mtime == if now / SCALER > old(mtime) then now / SCALER else old(mtime)
    {
      var n := now / SCALER;
      if n > mtime {
        mtime := n;
      }
      t := mtime;
    }

    method Notify(delay: nat)
      modifies this`irqEvent
      ensures irqEvent == Earliest(old(irqEvent), now + delay)
    {
      if irqEvent.None? || irqEvent.value > now + delay {
        irqEvent := Some(now + delay);
      }
    }

    /** The body of run once the event has fired: the loop over the harts. */
    method Run(ghost s: State)
      requires Shape(s) && Shows(s) && Enabled(s, Action.Run, 0)
      modifies this`mtime, this`timerInterrupt, this`irqEvent
      ensures Shows(Fire(s))
    {
      irqEvent := None;
      var m := UpdateAndGetMtime();
      var i := 0;
      while i < |mtimecmp|
        invariant i <= |mtimecmp| == |timerInterrupt| && m == mtime == Updated(s)
        invariant forall k | 0 <= k < i :: timerInterrupt[k] == IsDue(m, mtimecmp[k])
        invariant irqEvent == WakeupFor(now, m, mtimecmp, i)
      {
        var cmp := mtimecmp[i];
        if cmp > 0 && mtime >= cmp {
          timerInterrupt := timerInterrupt[i := true];
        } else {
          timerInterrupt := timerInterrupt[i := false];
          if cmp > 0 && cmp < NEVER {
            Notify(Delay(mtime, cmp));
          }
        }
        i := i + 1;
      }
      assert timerInterrupt == Fire(s).raised;
    }
  }
}
