/** BusLock and CombinedMemoryInterface as objects; each operation is a step, or a run of steps, of BusProtocol. */
module BusInterface {
  import opened BusProtocol
  import opened Wrappers

  class BusLock {
    var locked: bool
    var owner: nat

    ghost function Holder(): Option<nat>
      reads this
    {
      if locked then Some(owner) else None
    }

    constructor ()
      ensures Holder() == None
    {
      locked, owner := false, 0;
    }

    /** Takes the lock for hart h; a lock owned by another hart makes h wait (granted is false). */
    method Lock(h: nat) returns (granted: bool)
      modifies this
      ensures granted == MayAccess(old(Holder()), h)
      ensures Holder() == if granted then Some(h) else old(Holder())
    {
      if locked && h != owner {
        return false;
      }
      locked, owner := true, h;
      granted := true;
    }

    method Unlock(h: nat)
      modifies this
      ensures Holder() == BusProtocol.Unlock(old(Holder()), h)
    {
      if locked && owner == h {
        locked := false;
      }
    }

    method IsLockedBy(h: nat) returns (b: bool)
      ensures b == (Holder() == Some(h))
    {
      b := locked && owner == h;
    }

    method HasAccessRights(h: nat) returns (b: bool)
      ensures b == MayAccess(Holder(), h)
    {
      var mine := IsLockedBy(h);
      b := !(locked && !mine);
    }
  }

  class Ram {
    var words: BusProtocol.Memory

    constructor (words: BusProtocol.Memory)
      ensures this.words == words
    {
      this.words := words;
    }
  }

  /** A page table entry and where a translation stores it. */
  datatype Entry = Entry(pa: nat, v: int)

  function Translated(m: BusProtocol.Memory, pte: Option<Entry>): BusProtocol.Memory {
    if pte.Some? then m[pte.value.pa := pte.value.v] else m
  }

  datatype AmoResult = Waits | AssertionFails | Loaded(value: int)

  class MemoryInterface {
    const hart: nat
    const bus: BusLock
    const ram: Ram
    var lrAddr: nat

    constructor (hart: nat, bus: BusLock, ram: Ram)
      ensures this.hart == hart && this.bus == bus && this.ram == ram && lrAddr == 0
    {
      this.hart, this.bus, this.ram, lrAddr := hart, bus, ram, 0;
    }

    /** None: the thread waits for the lock. */
    method RawLoad(pa: nat) returns (r: Option<int>)
      ensures r == if MayAccess(bus.Holder(), hart) then Some(Read(ram.words, pa)) else None
    {
      var admitted := bus.HasAccessRights(hart);
      if !admitted {
        return None;
      }
      r := Some(Read(ram.words, pa));
    }

    /** Every store gives back a lock that the storing hart owns. */
    method RawStore(pa: nat, v: int) returns (done: bool)
      modifies bus, ram
      ensures done == MayAccess(old(bus.Holder()), hart)
      ensures bus.Holder() == if done then Unlock(old(bus.Holder()), hart) else old(bus.Holder())
      ensures ram.words == if done then ApplyCommit(old(ram.words), Word(pa, v)) else old(ram.words)
    {
      done := bus.HasAccessRights(hart);
      if done {
        ram.words := ram.words[pa := v];
        bus.Unlock(hart);
      }
    }

    /** The address translation before an access of a hart that the bus admits: it may store a page table entry. */
    method Translation(pte: Option<Entry>)
      requires MayAccess(bus.Holder(), hart)
      modifies bus, ram
      ensures bus.Holder() == if pte.Some? then Unlock(old(bus.Holder()), hart) else old(bus.Holder())
      ensures ram.words == Translated(old(ram.words), pte)
    {
      if pte.Some? {
        var done := RawStore(pte.value.pa, pte.value.v);
      }
    }

    /** LR.W: lock, remember the address, translate, load. The load is granted whenever the lock is, and the lock is kept
        exactly if the translation stores nothing. */
    method AtomicLoadReserved(va: nat, pa: nat, pte: Option<Entry>) returns (r: Option<int>)
      modifies this, bus, ram
      ensures r == if MayAccess(old(bus.Holder()), hart) then Some(Read(Translated(old(ram.words), pte), pa)) else None
      ensures r.Some? ==> lrAddr == va && bus.Holder() == if pte.Some? then None else Some(hart)
      ensures r.Some? ==> ram.words == Translated(old(ram.words), pte)
      ensures r.None? ==> bus.Holder() == old(bus.Holder()) && lrAddr == old(lrAddr) && ram.words == old(ram.words)
    {
      var granted := bus.Lock(hart);
      if !granted {
        return None;
      }
      lrAddr := va;
      Translation(pte);
      r := RawLoad(pa);
    }

    /** SC.W: succeeds exactly when the hart still owns the lock and repeats the reserved address; in every case the
        hart does not own the lock afterwards. The translation of a store that passed the check may give it up first. */
    method AtomicStoreConditional(va: nat, pa: nat, v: int, pte: Option<Entry>) returns (success: bool)
      modifies bus, ram
      ensures success == (old(bus.Holder()) == Some(hart) && va == lrAddr)
      ensures bus.Holder() == Unlock(old(bus.Holder()), hart)
      ensures ram.words == if success then Translated(old(ram.words), pte)[pa := v] else old(ram.words)
    {
      var mine := bus.IsLockedBy(hart);
      if mine {
        if va == lrAddr {
          Translation(pte);
          success := RawStore(pa, v);
          return;
        }
        bus.Unlock(hart);
      }
      success := false;
    }

    /** execute_amo, with what the two translations store. Undisturbed in between, it is one read-modify-write that hands
        back the old word, but the assertion on the lock fails exactly if the translation of the load stored. */
    method ExecuteAmo(pa: nat, op: AmoOp, operand: int, loadPte: Option<Entry>, storePte: Option<Entry>)
      returns (r: AmoResult)
      modifies bus, ram
      ensures r == if !MayAccess(old(bus.Holder()), hart) then Waits
                   else if loadPte.Some? then AssertionFails
                   else Loaded(old(Read(ram.words, pa)))
      ensures bus.Holder() == if r.Waits? then old(bus.Holder()) else None
      ensures r.Waits? ==> ram.words == old(ram.words)
      ensures r.AssertionFails? ==> ram.words == Translated(old(ram.words), loadPte)
      ensures r.Loaded? ==> ram.words == Translated(old(ram.words), storePte)[pa := op(r.value, operand)]
    {
      var granted := bus.Lock(hart);
      if !granted {
        return Waits;
      }
      Translation(loadPte);
      var loaded := RawLoad(pa);
      var mine := bus.IsLockedBy(hart);
      if !mine {
        return AssertionFails;
      }
      Translation(storePte);
      var done := RawStore(pa, op(loaded.value, operand));
      r := Loaded(loaded.value);
    }
  }

  // ---------------------------------------------------------------- the methods as steps of the protocol

  /** The step of a translation, if it stores. */
  function Translating(s: State, h: nat, pte: Option<Entry>): Option<State> {
    if pte.None? then Some(s)
    else if Enabled(s, PteStore(h, pte.value.pa, pte.value.v)) then Some(Next(s, PteStore(h, pte.value.pa, pte.value.v)))
    else None
  }

  /** What AtomicStoreConditional promises is what ScCheck, the translation and ScWrite do without interruption. */
  lemma {:induction false} StoreConditionalSteps(s: State, h: nat, va: nat, pa: nat, v: int, pte: Option<Entry>)
    requires Enabled(s, ScCheck(h, va, v))
    ensures var s1 := Next(s, ScCheck(h, va, v));
            if s.lock == Some(h) && va == s.harts[h].lrAddr then
              && Translating(s1, h, pte).Some?
              && var s2 := Translating(s1, h, pte).value;
                 && Enabled(s2, ScWrite(h, pa))
                 && Next(s2, ScWrite(h, pa)).mem == Translated(s.mem, pte)[pa := v]
                 && Next(s2, ScWrite(h, pa)).lock == Unlock(s.lock, h)
            else s1.harts[h].stage.Retiring? && s1.mem == s.mem && s1.lock == Unlock(s.lock, h)
  {
  }

  /** The same for AtomicLoadReserved: LrLock, the translation, LrRead. */
  lemma {:induction false} LoadReservedSteps(s: State, h: nat, va: nat, pa: nat, pte: Option<Entry>)
    requires Enabled(s, LrLock(h, va))
    ensures var s1 := Next(s, LrLock(h, va));
            && Translating(s1, h, pte).Some?
            && var s2 := Translating(s1, h, pte).value;
               && Enabled(s2, LrRead(h, pa))
               && var s3 := Next(s2, LrRead(h, pa));
                  && s3.mem == Translated(s.mem, pte) && s3.harts[h].lrAddr == va
                  && s3.lock == if pte.Some? then None else Some(h)
  {
  }

  /** The same for ExecuteAmo: AmoLock, the translation of the load, AmoRead, the translation of the store, AmoWrite. */
  lemma {:induction false} AmoSteps(
      s: State, h: nat, pa: nat, op: AmoOp, operand: int, loadPte: Option<Entry>, storePte: Option<Entry>)
    requires Enabled(s, AmoLock(h, op, operand))
    ensures var s1 := Next(s, AmoLock(h, op, operand));
            && Translating(s1, h, loadPte).Some?
            && var s2 := Translating(s1, h, loadPte).value;
               && Enabled(s2, AmoRead(h, pa))
               && var s3 := Next(s2, AmoRead(h, pa));
                  if loadPte.Some? then s3.harts[h].stage.Aborted? && s3.mem == Translated(s.mem, loadPte) && s3.lock.None?
                  else
                    && Translating(s3, h, storePte).Some?
                    && var s4 := Translating(s3, h, storePte).value;
                       && Enabled(s4, AmoWrite(h))
                       && Next(s4, AmoWrite(h)).mem == Translated(s.mem, storePte)[pa := op(Read(s.mem, pa), operand)]
                       && Next(s4, AmoWrite(h)).lock.None?
  {
  }

  /** A peripheral behind PeripheralWriteConnector writes only while nobody owns the lock. */
  method PeripheralWrite(bus: BusLock, ram: Ram, pa: nat, v: int) returns (done: bool)
    modifies ram
    ensures done == bus.Holder().None?
    ensures ram.words == if done then ApplyCommit(old(ram.words), Word(pa, v)) else old(ram.words)
  {
    if bus.locked {
      return false;
    }
    ram.words := ram.words[pa := v];
    done := true;
  }
}
