/** GenericMMU as an object: the cache array, the page walk loop, and the registers that steer them. */
module Mmu {
  import opened Bits
  import opened Wrappers
  import opened PageTable
  import opened Tlb

  const BARE: nat := 0
  const SV32: nat := 1
  const SV39: nat := 8
  const SV48: nat := 9
  const SV57: nat := 10

  function DecodeVm(mode: nat, ppn: nat): Option<Vm> {
    var ptbase := ppn * 4096;
    if mode == SV32 then Some(Vm(2, 10, 4, ptbase))
    else if mode == SV39 then Some(Vm(3, 9, 8, ptbase))
    else if mode == SV48 then Some(Vm(4, 9, 8, ptbase))
    else if mode == SV57 then Some(Vm(5, 9, 8, ptbase))
    else None
  }

  function AccIndex(acc: Access): (k: nat)
    ensures k < 3
  {
    match acc case Fetch => 0 case Load => 1 case Store => 2
  }

  /** The satp modes a write can leave behind on each hart. */
  predicate LegalMode(xlen: nat, mode: nat) {
    if xlen == 32 then mode in {BARE, SV32} else mode in {BARE, SV39, SV48}
  }

  class GenericMmu {
    const xlen: nat
    const faultOnAD: bool
    const tlb: array3<Entry>

    var satpMode: nat
    var satpPpn: nat
    var sum: bool
    var mxr: bool
    var mprv: bool
    var mpp: nat
    var prv: nat

    /** The memory behind mmu_memory_if. */
    var mem: Memory

    ghost predicate Shape() {
      tlb.Length0 == 2 && tlb.Length1 == 3 && tlb.Length2 == 256
    }

    ghost predicate Valid()
      reads this`satpMode, this`satpPpn, this`prv, this`mpp
    {
      && Shape()
      && xlen in {32, 64}
      && LegalMode(xlen, satpMode)
      && satpPpn < 0x1000_0000_0000
      && prv in {0, 1, 3} && mpp in {0, 1, 3}
    }

    function Paging(): (p: Option<Regime>)
      requires LegalMode(xlen, satpMode)
      reads this`satpMode, this`satpPpn, this`sum, this`mxr
    {
      if satpMode == BARE then None
      else Some(Regime(DecodeVm(satpMode, satpPpn).value, xlen, sum, mxr, faultOnAD))
    }

    ghost function Cache(): map<Slot, Entry>
      requires Shape()
      reads tlb
    {
      map s: Slot | s in Slots() :: tlb[s.mode, AccIndex(s.acc), s.idx]
    }

    ghost function Abstract(): State
      requires Valid()
      reads this, tlb
    {
      State(Paging(), mem, Cache())
    }

    lemma {:induction false} PagingIsValid()
      requires Valid()
      ensures Paging().Some? ==> Paging().value.Valid()
      ensures Abstract().Valid()
    {
      if satpMode != BARE {
        ShiftIsProduct(Paging().value.vm, Paging().value.vm.levels);
      }
    }

    constructor (xlen: nat, mem: Memory)
      requires xlen in {32, 64}
      ensures Valid() && this.mem == mem && this.xlen == xlen
      ensures Abstract() == State(None, mem, Flushed())
      ensures fresh(tlb)
    {
      this.xlen := xlen;
      faultOnAD := false;
      this.mem := mem;
      satpMode, satpPpn, sum, mxr, mprv, mpp, prv := BARE, 0, false, false, false, 0, 3;
      tlb := new Entry[2, 3, 256]((_, _, _) => EMPTY);
    }

    method FlushTlb()
      requires Valid()
      modifies tlb
      ensures Valid() && Abstract() == old(Abstract()).(tlb := Flushed())
    {
      forall i, j, k | 0 <= i < 2 && 0 <= j < 3 && 0 <= k < 256 {
        tlb[i, j, k] := EMPTY;
      }
    }

    /** CSR write of satp: RV64 keeps the old mode when the new one is not implemented, so decode_vm_info never
        meets a mode it does not know. */
    method WriteSatp(tvm: bool, mode: nat, ppn: nat) returns (legal: bool)
      requires Valid()
      requires if xlen == 32 then mode < 2 && ppn < 0x40_0000 else mode < 16 && ppn < 0x1000_0000_0000
      modifies this`satpMode, this`satpPpn
      ensures Valid() && legal == !tvm
      ensures tvm ==> satpMode == old(satpMode) && satpPpn == old(satpPpn)
      ensures !tvm ==> satpPpn == ppn && satpMode == if LegalMode(xlen, mode) then mode else old(satpMode)
    {
      if tvm {
        return false;
      }
      var oldMode := satpMode;
      satpMode, satpPpn := mode, ppn;
      if xlen == 64 && satpMode != BARE && satpMode != SV39 && satpMode != SV48 {
        satpMode := oldMode;
      }
      legal := true;
    }

    method CheckVaddrExtension(va: nat, vm: Vm) returns (ok: bool)
      requires Valid() && satpMode != BARE && vm == Paging().value.vm
      ensures Paging().value.Valid() && ok == Canonical(Paging().value, va / 4096)
    {
      PagingIsValid();
      ShiftIsProduct(vm, vm.levels);
      var highbit := vm.idxbits * vm.levels + 12 - 1;
      var extMask := Pow2(xlen - highbit) - 1;
      var bits := va / Pow2(highbit) % Pow2(xlen - highbit);
      ok := bits == 0 || bits == extMask;
      VpnShift(va, highbit - 12);
    }

    /** The checks a leaf has to pass before it translates, in the order the walk makes them. */
    method CheckLeaf(vm: Vm, pte: Pte, acc: Access, smode: bool, i: nat) returns (usable: bool)
      requires Valid() && satpMode != BARE && vm == Paging().value.vm
      requires Classify(pte) == PageTable.Leaf
      ensures usable == UsableLeaf(Paging().value, acc, smode, pte, i)
    {
      if acc.Fetch? && !X(pte) {
        return false;
      }
      if acc.Load? && !R(pte) && !(mxr && X(pte)) {
        return false;
      }
      if acc.Store? && !(R(pte) && W(pte)) {
        return false;
      }
      if U(pte) {
        if smode && (acc.Fetch? || !sum) {
          return false;
        }
      } else {
        if !smode {
          return false;
        }
      }
      ShiftIsProduct(vm, i);
      var ptshift := i * vm.idxbits;
      if Ppn(pte) % Pow2(ptshift) != 0 {
        return false;
      }
      if !HasAD(pte, acc) && faultOnAD {
        return false;
      }
      return true;
    }

    method StoreAD(pteAddr: nat, pte: Pte, acc: Access)
      modifies this`mem
      ensures mem == if HasAD(pte, acc) then old(mem) else old(mem)[pteAddr / 4 := SetAD(pte, acc) % TWO32]
    {
      if !HasAD(pte, acc) {
        mem := mem[pteAddr / 4 := SetAD(pte, acc) % TWO32];
      }
    }

    static method EntryAddress(va: nat, vm: Vm, base: nat, i: nat) returns (a: nat)
      ensures a == PteAddr(vm, va / 4096, base, i)
    {
      ShiftIsProduct(vm, i);
      var ptshift := i * vm.idxbits;
      VpnShift(va, ptshift);
      var field := va / Pow2(12 + ptshift) % Pow2(vm.idxbits);
      a := base + field * vm.ptesize;
    }

    /** One turn of the page walk loop: either the walk is over or it goes on in the table at next. */
    method VisitLevel(va: nat, acc: Access, smode: bool, vm: Vm, base: nat, i: nat) returns (done: bool, r: Found, next: nat)
      requires Valid() && satpMode != BARE && vm == Paging().value.vm
      ensures WalkFrom(Paging().value, mem, acc, smode, va / 4096, base, i) ==
              if done then r else WalkFrom(Paging().value, mem, acc, smode, va / 4096, next, i - 1)
    {
      done, r, next := true, PageFault, base;
      var pteAddr := EntryAddress(va, vm, base, i);
      var loaded := LoadPte(vm, mem, pteAddr);
      if loaded.None? {
        r := BusFault(pteAddr);
        return;
      }
      var pte := loaded.value;
      if !V(pte) || (!R(pte) && W(pte)) {
        return;
      }
      if !R(pte) && !X(pte) {
        done, next := false, FrameAddr(Ppn(pte));
        return;
      }
      var usable := CheckLeaf(vm, pte, acc, smode, i);
      if usable {
        r := Hit(i, pteAddr, pte);
      }
    }

    /** The page walk loop finds what the recursive translation defines. */
    method FindLeaf(va: nat, acc: Access, smode: bool, vm: Vm) returns (r: Found)
      requires Valid() && satpMode != BARE && vm == Paging().value.vm
      ensures r == WalkFrom(Paging().value, mem, acc, smode, va / 4096, vm.ptbase, Paging().value.Top())
    {
      ghost var g := Paging().value;
      ghost var f := WalkFrom(g, mem, acc, smode, va / 4096, vm.ptbase, g.Top());
      var base: nat := vm.ptbase;
      var i: int := vm.levels - 1;
      r := PageFault;
      while i >= 0
        invariant -1 <= i < vm.levels
        invariant f == WalkFrom(g, mem, acc, smode, va / 4096, base, i)
        invariant r == PageFault
      {
        var done, found, next := VisitLevel(va, acc, smode, vm, base, i);
        if done {
          return found;
        }
        base := next;
        i := i - 1;
      }
    }

    /** The walk stores what the translation prescribes: the accessed and dirty bits of the leaf. */
    method WalkTables(va: nat, acc: Access, smode: bool, vm: Vm) returns (r: Found)
      requires Valid() && satpMode != BARE && vm == Paging().value.vm
      modifies this`mem
      ensures r == WalkFrom(Paging().value, old(mem), acc, smode, va / 4096, vm.ptbase, Paging().value.Top())
      ensures mem == WriteBack(old(mem), r, acc)
    {
      r := FindLeaf(va, acc, smode, vm);
      if r.Hit? {
        StoreAD(r.addr, r.pte, acc);
      }
    }

    method Walk(va: nat, acc: Access, mode: nat) returns (r: Outcome)
      requires Valid() && satpMode != BARE && mode < 2
      modifies this`mem
      ensures Paging().value.Valid()
      ensures r == Fresh(Paging().value, old(mem), acc, mode == 1, va)
      ensures mem == WriteBack(old(mem), Lookup(Paging().value, old(mem), acc, mode == 1, va / 4096), acc)
    {
      PagingIsValid();
      var vm := DecodeVm(satpMode, satpPpn).value;
      var canonical := CheckVaddrExtension(va, vm);
      if !canonical {
        return Trap(PageFaultCode(acc), va);
      }
      var found := WalkTables(va, acc, mode == 1, vm);
      match found {
        case Hit(i, _, pte) => r := Phys(PhysAddr(vm, i, Ppn(pte), va));
        case BusFault(a) => r := Trap(13, a);
        case PageFault => r := Trap(PageFaultCode(acc), va);
      }
    }

    /** The method takes the state machine's Translate step. */
    method TranslateVirtualToPhysical(va: nat, acc: Access) returns (r: Outcome)
      requires Valid()
      modifies this`mem, tlb
      ensures Valid()
      ensures var mode := if !acc.Fetch? && mprv then mpp else prv;
              old(Abstract()).Valid() &&
              (r, Abstract()) == Translate(old(Abstract()), mode, acc, va)
    {
      PagingIsValid();
      if satpMode == BARE {
        return Phys(va);
      }
      var mode := prv;
      if !acc.Fetch? && mprv {
        mode := mpp;
      }
      if mode == MACHINE {
        return Phys(va);
      }
      var vpn := va / 4096;
      var idx := vpn % 256;
      var k := AccIndex(acc);
      SlotExists(mode, acc, va);
      assert Cache()[SlotOf(mode, acc, va)] == tlb[mode, k, idx];
      if tlb[mode, k, idx].vpn == vpn {
        return Phys(tlb[mode, k, idx].ppn + va % 4096);
      }
      r := Miss(va, acc, mode);
    }

    method Miss(va: nat, acc: Access, mode: nat) returns (r: Outcome)
      requires Valid() && satpMode != BARE && mode < 2 && !UsesCache(Abstract(), mode, acc, va)
      modifies this`mem, tlb
      ensures old(Abstract()).Valid() && (r, Abstract()) == Translate(old(Abstract()), mode, acc, va)
    {
      PagingIsValid();
      SlotExists(mode, acc, va);
      r := Walk(va, acc, mode);
      if r.Phys? {
        SetEntry(mode, acc, va / 4096 % 256, Entry(CachedPage(r.addr), va / 4096));
      }
    }

    method SetEntry(mode: nat, acc: Access, idx: nat, e: Entry)
      requires Valid() && Slot(mode, acc, idx) in Slots()
      modifies tlb
      ensures Cache() == old(Cache())[Slot(mode, acc, idx) := e]
    {
      tlb[mode, AccIndex(acc), idx] := e;
    }
  }

  /** va >> (PGSHIFT + s) == vpn >> s */
  lemma {:induction false} VpnShift(va: nat, s: nat)
    ensures va / Pow2(12 + s) == va / 4096 / Pow2(s)
  {
    assert Pow2(12) == 4096;
    ShiftShift(va, 12, s);
  }

  /** Every mode translates the number of address bits in its name, its tables fill one page, and its root is the page that
      satp names. */
  lemma {:induction false} ModesAsNamed(mode: nat, ppn: nat)
    requires mode in {1, 8, 9, 10}
    ensures DecodeVm(mode, ppn).Some?
    ensures var vm := DecodeVm(mode, ppn).value;
            && 12 + vm.levels * vm.idxbits == (if mode == 1 then 32 else if mode == 8 then 39 else if mode == 9 then 48 else 57)
            && Pow2(vm.idxbits) * vm.ptesize == 4096
            && vm.ptesize == (if mode == 1 then 4 else 8)
            && vm.ptbase / 4096 == ppn && vm.ptbase % 4096 == 0
  {
    assert Pow2(9) == 512 && Pow2(10) == 1024;
  }

  // ---------------------------------------------------------------- where the cache and the walk part

  lemma {:induction false} ZeroVpn(g: Regime, i: nat)
    requires g.Valid()
    ensures Field(g.vm, 0, i) == 0
  {
    QuotientIs(0, Pow2(Shift(g.vm, i)), 0, 0);
    QuotientIs(0, Pow2(g.vm.idxbits), 0, 0);
  }

  lemma {:induction false} ZeroIsCanonical(g: Regime)
    requires g.Valid()
    ensures Canonical(g, 0)
  {
    QuotientIs(0, Pow2(g.HighBit() - 12), 0, 0);
    QuotientIs(0, Pow2(g.xlen - g.HighBit()), 0, 0);
  }

  /** A readable, accessed supervisor superpage at 4 GiB. */
  lemma {:induction false} HighPage(g: Regime, v: Pte)
    requires g.vm == Vm(2, 10, 4, 4096) && v == 0x4000_00CF
    ensures Ppn(v) == 0x10_0000 && HasAD(v, Load)
    ensures Classify(v) == PageTable.Leaf && Permitted(g, Load, true, v)
    ensures Aligned(g.vm, v, 1)
  {
    assert v % 2 == 1 && v % 4 == 3 && v % 8 == 7 && v % 16 == 15;
    assert v % 32 == 15 && v % 128 == 79;
    assert Shift(g.vm, 1) == 10 && Pow2(10) == 1024;
  }

  lemma {:induction false} HighAddress(vm: Vm)
    requires vm == Vm(2, 10, 4, 4096)
    ensures PhysAddr(vm, 1, 0x10_0000, 0) == TWO32
  {
    assert Shift(vm, 1) == 10 && Pow2(10) == 1024;
  }

  lemma {:induction false} RootLeaf(g: Regime, m: Memory, v: Pte)
    requires g.Valid() && g.vm == Vm(2, 10, 4, 4096) && 1024 in m && v == m[1024] == 0x4000_00CF && !g.faultOnAD
    ensures WalkFrom(g, m, Load, true, 0, 4096, 1) == Hit(1, 4096, v)
  {
    ZeroVpn(g, 1);
    HighPage(g, v);
    assert UsableLeaf(g, Load, true, v, 1);
    var a := PteAddr(g.vm, 0, 4096, 1);
    assert a == 4096;
    assert LoadPte(g.vm, m, a) == Some(v);
    HitHere(g, m, Load, true, 0, 4096, 1, v);
  }

  lemma {:induction false} HitHere(g: Regime, m: Memory, acc: Access, smode: bool, vpn: nat, base: nat, i: nat, v: Pte)
    requires LoadPte(g.vm, m, PteAddr(g.vm, vpn, base, i)) == Some(v)
    requires UsableLeaf(g, acc, smode, v, i)
    ensures WalkFrom(g, m, acc, smode, vpn, base, i) == Hit(i, PteAddr(g.vm, vpn, base, i), v)
  {
  }

  lemma {:induction false} RootLookup(g: Regime, m: Memory, v: Pte)
    requires g.Valid() && g.vm == Vm(2, 10, 4, 4096) && 1024 in m && v == m[1024] == 0x4000_00CF && !g.faultOnAD
    ensures Lookup(g, m, Load, true, 0) == Hit(1, 4096, v)
  {
    RootLeaf(g, m, v);
    ZeroIsCanonical(g);
    assert g.Top() == 1;
  }

  /** With entry 0 of the root table at 4096 a superpage at 4 GiB, the first load of address 0 answers 2^32 and the
      second, from the cache, answers 0. */
  lemma {:induction false} CacheLosesHighBits(g: Regime, m: Memory, s0: State, e: Event)
    requires g == Regime(Vm(2, 10, 4, 4096), 32, false, false, false)
    requires 1024 in m && m[1024] == 0x4000_00CF
    requires s0 == State(Some(g), m, Flushed())
    requires e == Event.Access(1, Load, 0)
    ensures s0.Valid() && Legal(s0, e)
    ensures IsRun([s0, Step(s0, e)], [e])
    ensures Translate(s0, 1, Load, 0).0 == Phys(TWO32)
    ensures Translate(Step(s0, e), 1, Load, 0).0 == Phys(0)
  {
    ShiftIsProduct(g.vm, 2);
    HighPage(g, m[1024]);
    HighAddress(g.vm);
    RootLookup(g, m, m[1024]);
    SlotExists(1, Load, 0);
    var f := Hit(1, 4096, m[1024]);
    assert ToOutcome(g, f, Load, 0) == Phys(TWO32);
    assert WriteBack(m, f, Load) == m;
    assert Translate(s0, 1, Load, 0) == (Phys(TWO32), s0.(tlb := s0.tlb[Slot(1, Load, 0) := Entry(0, 0)]));
  }
}
