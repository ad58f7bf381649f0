/** The FE310 interrupt controller with one core: the gateway, the selection of the next interrupt, and claims. */
module Plic {

  /** prio[i] is the priority of source i; sources are 1 .. sources - 1. */
  datatype State = State(sources: nat, pending: set<nat>, enabled: set<nat>, prio: seq<nat>, threshold: nat)

  predicate Shape(s: State) { |s.prio| == s.sources + 1 }

  /** Source i may be handed out: pending, enabled and of nonzero priority (above the threshold where that counts). */
  predicate Candidate(s: State, useThreshold: bool, i: nat)
    requires Shape(s)
  {
    && 1 <= i < s.sources && i in s.enabled && i in s.pending
    && s.prio[i] > 0 && (useThreshold ==> s.prio[i] > s.threshold)
  }

  /** i is served before j: higher priority, or equal priority and smaller id. */
  predicate Before(s: State, i: nat, j: nat)
    requires Shape(s) && i < s.sources && j < s.sources
  {
    s.prio[i] > s.prio[j] || (s.prio[i] == s.prio[j] && i < j)
  }

  /** The running maximum of hart_get_next_pending_interrupt over the sources below n; 0 when there is none. */
  function Select(s: State, useThreshold: bool, n: nat): (id: nat)
    requires Shape(s) && n <= s.sources
    ensures id == 0 || (id < n && Candidate(s, useThreshold, id))
  {
    if n == 0 then 0
    else
      var best := Select(s, useThreshold, n - 1);
      if Candidate(s, useThreshold, n - 1) && (best == 0 || s.prio[n - 1] > s.prio[best]) then n - 1 else best
  }

  /** The selection never passes over a source that is pending and enabled with a priority above zero and, where it counts,
      above the threshold; and it selects such a source. */
  lemma {:induction false} SelectIsFirst(s: State, useThreshold: bool, n: nat, i: nat)
    requires Shape(s) && 0 < i < n <= s.sources && i in s.pending && i in s.enabled
    requires s.prio[i] > if useThreshold then s.threshold else 0
    ensures var best := Select(s, useThreshold, n);
            && best != 0 && (best == i || Before(s, best, i))
            && best in s.pending && best in s.enabled && s.prio[best] > if useThreshold then s.threshold else 0
  {
    if i < n - 1 {
      SelectIsFirst(s, useThreshold, n - 1, i);
    }
  }

  function Next(s: State): nat
    requires Shape(s)
  {
    Select(s, false, s.sources)
  }

  function AfterClaim(s: State): State
    requires Shape(s)
  {
    s.(pending := s.pending - {Next(s)})
  }

  /** The sources that a claim may hand out: pending, enabled, of nonzero priority, and not source 0. */
  function Claimable(s: State): set<nat>
    requires Shape(s)
  {
    set i | i in s.pending && i in s.enabled && 0 < i < s.sources && s.prio[i] != 0
  }

  /** A claim returns the first claimable source, or 0 exactly when there is none, and makes it no longer claimable. */
  lemma {:induction false} ClaimTakesFirst(s: State)
    requires Shape(s)
    ensures Next(s) == 0 <==> Claimable(s) == {}
    ensures Next(s) != 0 ==> Next(s) in Claimable(s)
    ensures forall i :: i in Claimable(s) && i != Next(s) ==> Before(s, Next(s), i)
    ensures Claimable(AfterClaim(s)) == Claimable(s) - {Next(s)}
  {
    forall i | i in Claimable(s)
      ensures Next(s) != 0 && (i == Next(s) || Before(s, Next(s), i))
    {
      SelectIsFirst(s, false, s.sources, i);
    }
    if Next(s) != 0 {
      assert Next(s) in Claimable(s);
    }
  }

  /** What n claims in a row return. */
  function Claims(s: State, n: nat): seq<nat>
    requires Shape(s)
    decreases n
  {
    if n == 0 then [] else [Next(s)] + Claims(AfterClaim(s), n - 1)
  }

  ghost predicate Sorted(s: State, ids: seq<nat>)
    requires Shape(s)
  {
    && (forall i | 0 <= i < |ids| :: ids[i] < s.sources)
    && (forall i, j | 0 <= i < j < |ids| :: Before(s, ids[i], ids[j]))
  }

  /** With no new triggers, repeated claims return exactly the claimable sources, each once, in descending priority with
      ties by ascending id. */
  lemma {:induction false} ClaimsAreComplete(s: State)
    requires Shape(s)
    ensures var ids := Claims(s, |Claimable(s)|);
            && |ids| == |Claimable(s)|
            && (set i | i in ids) == Claimable(s)
            && Sorted(s, ids)
    decreases |Claimable(s)|
  {
    ClaimTakesFirst(s);
    if Claimable(s) != {} {
      var s' := AfterClaim(s);
      ClaimsAreComplete(s');
      var rest := Claims(s', |Claimable(s')|);
      var ids := [Next(s)] + rest;
      assert Claims(s, |Claimable(s)|) == ids;
      assert forall i :: i in rest <==> i in Claimable(s');
      forall i, j | 0 <= i < j < |ids|
        ensures Before(s, ids[i], ids[j])
      {
        assert ids[j] == rest[j - 1];
        if i == 0 {
          assert ids[j] in rest;
        } else {
          assert Before(s', rest[i - 1], rest[j - 1]);
        }
      }
      forall i | 0 <= i < |ids|
        ensures ids[i] < s.sources
      {
        if i > 0 {
          assert ids[i] == rest[i - 1];
        }
      }
      assert (set i | i in ids) == {Next(s)} + Claimable(s');
    } else {
      assert Claims(s, 0) == [];
    }
  }

  /** Claims beyond that return 0 and change nothing. */
  lemma {:induction false} ThenZero(s: State, n: nat)
    requires Shape(s) && Claimable(s) == {} && 0 !in s.pending
    ensures Claims(s, n) == seq(n, i => 0)
  {
    ClaimTakesFirst(s);
    if n > 0 {
      assert AfterClaim(s) == s;
      ThenZero(s, n - 1);
    }
  }

  // ---------------------------------------------------------------- runs

  datatype Event =
    | Trigger(id: nat)
    | Claim
    | WriteEnabled(ids: set<nat>)
    | WritePriorities(prio: seq<nat>)
    | WriteThreshold(value: nat)

  predicate Legal(s: State, e: Event) {
    match e
    case Trigger(id) => 0 < id < s.sources
    case WritePriorities(prio) => |prio| == s.sources + 1
    case _ => true
  }

  function Step(s: State, e: Event): State
    requires Shape(s) && Legal(s, e)
  {
    match e
    case Trigger(id) => s.(pending := s.pending + {id})
    case Claim => AfterClaim(s)
    case WriteEnabled(ids) => s.(enabled := ids)
    case WritePriorities(prio) => s.(prio := prio)
    case WriteThreshold(v) => s.(threshold := v)
  }

  ghost predicate StepAt(states: seq<State>, events: seq<Event>, k: nat)
    requires k < |events| && |states| == |events| + 1
  {
    Shape(states[k]) && Legal(states[k], events[k]) && states[k + 1] == Step(states[k], events[k])
  }

  ghost predicate IsRun(states: seq<State>, events: seq<Event>) {
    && |states| == |events| + 1
    && Shape(states[0]) && states[0].pending == {}
    && forall k: nat | k < |events| :: StepAt(states, events, k)
  }

  ghost predicate ClaimedAt(states: seq<State>, events: seq<Event>, k: nat, id: nat)
    requires k < |events| && |states| == |events| + 1
  {
    events[k] == Claim && Shape(states[k]) && Next(states[k]) == id
  }

  /** Source id was triggered at step k and has not been claimed since. */
  ghost predicate TriggeredSince(states: seq<State>, events: seq<Event>, k: nat, n: nat, id: nat)
    requires |states| == |events| + 1 && n <= |events|
  {
    && k < n && events[k] == Trigger(id)
    && forall j: nat | k < j < n :: !ClaimedAt(states, events, j, id)
  }

  /** Over any run, a source is pending exactly when it was triggered after its last claim. */
  lemma {:induction false} PendingIffTriggered(states: seq<State>, events: seq<Event>, n: nat, id: nat)
    requires IsRun(states, events) && n <= |events| && id > 0
    ensures id in states[n].pending <==> exists k: nat :: TriggeredSince(states, events, k, n, id)
  {
    if n > 0 {
      PendingIffTriggered(states, events, n - 1, id);
      assert StepAt(states, events, n - 1);
      if id in states[n].pending {
        if events[n - 1] == Trigger(id) {
          assert TriggeredSince(states, events, n - 1, n, id);
        } else {
          var k: nat :| TriggeredSince(states, events, k, n - 1, id);
          assert TriggeredSince(states, events, k, n, id);
        }
      } else {
        forall k: nat | TriggeredSince(states, events, k, n, id)
          ensures false
        {
          if k < n - 1 {
            assert !ClaimedAt(states, events, n - 1, id);
            assert TriggeredSince(states, events, k, n - 1, id);
          }
        }
      }
    }
  }

  // ---------------------------------------------------------------- the object

  class Fe310Plic {
    const sources: nat
    const pendingBits: array2<bool>
    const enabledBits: array2<bool>
    const priorities: array<nat>
    var threshold: nat
    var claimResponse: nat

    ghost predicate Valid()
      reads this
    {
      && pendingBits != enabledBits
      && pendingBits.Length0 == enabledBits.Length0 && pendingBits.Length1 == enabledBits.Length1 == 32
      && 0 < sources <= 32 * pendingBits.Length0
      && priorities.Length == sources + 1
    }

    ghost function Bits(a: array2<bool>): set<nat>
      requires a.Length1 == 32
      reads a
    {
      set i: nat | i < 32 * a.Length0 && a[i / 32, i % 32]
    }

    ghost function Abstract(): State
      requires Valid()
      reads this, pendingBits, enabledBits, priorities
    {
      State(sources, Bits(pendingBits), Bits(enabledBits), priorities[..], threshold)
    }

    /** All disabled, nothing pending, priority 1 for every source. */
    constructor (sources: nat, entries: nat)
      requires 0 < sources <= 32 * entries
      ensures Valid() && Abstract().pending == {} && Abstract().enabled == {} && this.sources == sources
    {
      this.sources := sources;
      pendingBits := new bool[entries, 32]((_, _) => false);
      enabledBits := new bool[entries, 32]((_, _) => false);
      priorities := new nat[sources + 1](i => if i < sources then 1 else 0);
      threshold, claimResponse := 0, 0;
    }

    method SetPending(id: nat, value: bool)
      requires Valid() && id < sources
      modifies pendingBits
      ensures Valid()
      ensures Abstract() == old(Abstract()).(
                pending := if value then old(Abstract()).pending + {id} else old(Abstract()).pending - {id})
    {
      pendingBits[id / 32, id % 32] := value;
      assert forall i: nat | i < 32 * pendingBits.Length0 && i != id :: i / 32 != id / 32 || i % 32 != id % 32;
    }

    method GatewayTriggerInterrupt(id: nat)
      requires Valid() && 0 < id < sources
      modifies pendingBits
      ensures Valid() && Abstract() == Step(old(Abstract()), Trigger(id))
    {
      SetPending(id, true);
    }

    /** The selection loop with its running maximum. */
    method GetNextPendingInterrupt(considerThreshold: bool) returns (minId: nat)
      requires Valid()
      ensures minId == Select(Abstract(), considerThreshold, sources)
    {
      minId := 0;
      var maxPriority := 0;
      ghost var s := Abstract();
      assert Select(s, considerThreshold, 0) == Select(s, considerThreshold, 1) == 0;
      for i := 1 to sources
        invariant minId == Select(s, considerThreshold, i)
        invariant maxPriority == if minId == 0 then 0 else s.prio[minId]
      {
        var idx, off := i / 32, i % 32;
        if enabledBits[idx, off] {
          if pendingBits[idx, off] {
            var prio := priorities[i];
            if prio > 0 && (!considerThreshold || prio > threshold) {
              if prio > maxPriority {
                maxPriority := prio;
                minId := i;
              }
            }
          }
        }
      }
    }

    /** Read of the claim register. */
    method ClaimInterrupt()
      requires Valid()
      modifies this`claimResponse, pendingBits
      ensures Valid()
      ensures claimResponse == Next(old(Abstract()))
      ensures Abstract() == Step(old(Abstract()), Claim)
    {
      var minId := GetNextPendingInterrupt(false);
      claimResponse := minId;
      SetPending(minId, false);
    }
  }
}
