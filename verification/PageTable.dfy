/**
 The page tables of the RISC-V VP and the translation they define (GenericMMU::walk), for every
 paging mode the harts can select. Words, addresses and entries are natural numbers: bit k of v is set when v mod 2^(k+1) is at
 least 2^k; shifts are divisions
 by powers of two and 64-bit truncation is written out.
 */
module PageTable {
  import opened Bits
  import opened Wrappers

  datatype Access = Fetch | Load | Store

  type Word = w: nat | w < TWO32

  /** What answers on the bus, as aligned 32-bit words: the key is the byte address divided by four.
      An address without a word gives a bus error. */
  type Memory = map<nat, Word>

  datatype Vm = Vm(levels: nat, idxbits: nat, ptesize: nat, ptbase: nat)

  /** i * idxbits: how far the index of level i sits above the page offset. */
  function Shift(vm: Vm, i: nat): nat {
    if i == 0 then 0 else Shift(vm, i - 1) + vm.idxbits
  }

  lemma {:induction false} ShiftIsProduct(vm: Vm, i: nat)
    ensures Shift(vm, i) == i * vm.idxbits
  {
    if i > 0 {
      ShiftIsProduct(vm, i - 1);
    }
  }

  lemma {:induction false} ShiftMonotone(vm: Vm, i: nat, j: nat)
    requires i <= j
    ensures Shift(vm, i) <= Shift(vm, j)
    decreases j - i
  {
    if i < j {
      ShiftMonotone(vm, i, j - 1);
    }
  }

  /** Everything a translation depends on besides memory, the address and the access itself. */
  datatype Regime = Regime(vm: Vm, xlen: nat, sum: bool, mxr: bool, faultOnAD: bool) {
    predicate Valid() {
      && 1 <= vm.levels <= 5
      && ((vm.idxbits == 10 && vm.ptesize == 4) || (vm.idxbits == 9 && vm.ptesize == 8))
      && Shift(vm, vm.levels) + 11 < xlen
      && ValidBase(vm.ptbase)
    }

    function HighBit(): nat { Shift(vm, vm.levels) + 11 }

    /** The level of the root table. */
    function Top(): int { vm.levels - 1 }
  }

  predicate ValidBase(base: nat) { base % 4096 == 0 && base < TWO64 }

  // ---------------------------------------------------------------- page table entries

  type Pte = nat

  predicate V(v: Pte) { v % 2 >= 1 }
  predicate R(v: Pte) { v % 4 >= 2 }
  predicate W(v: Pte) { v % 8 >= 4 }
  predicate X(v: Pte) { v % 16 >= 8 }
  predicate U(v: Pte) { v % 32 >= 16 }
  predicate A(v: Pte) { v % 128 >= 64 }
  predicate D(v: Pte) { v % 256 >= 128 }
  function Ppn(v: Pte): nat { v / 1024 }

  datatype Kind = Invalid | Pointer | Leaf

  function Classify(v: Pte): Kind {
    if !V(v) || (!R(v) && W(v)) then Invalid else if !R(v) && !X(v) then Pointer else Leaf
  }

  /** frame << PGSHIFT in 64 bits, which keeps the low 52 bits of the frame number */
  function FrameAddr(frame: nat): (a: nat)
    ensures ValidBase(a)
  {
    frame % 0x10_0000_0000_0000 * 4096
  }

  function NextBase(v: Pte): nat { FrameAddr(Ppn(v)) }

  /** pte | PTE_A, and for a store also | PTE_D */
  function SetAD(v: Pte, acc: Access): Pte {
    v + (if A(v) then 0 else 64) + (if acc.Store? && !D(v) then 128 else 0)
  }

  predicate HasAD(v: Pte, acc: Access) { A(v) && (acc.Store? ==> D(v)) }

  /** Equal in every bit but A and D. */
  predicate EqualButAD(v: Pte, v': Pte) { v % 64 == v' % 64 && v / 256 == v' / 256 }

  /** The access rules for a leaf, as section 4.3 of the privileged architecture states them. */
  predicate Permitted(g: Regime, acc: Access, smode: bool, v: Pte) {
    && (match acc
        case Fetch => X(v)
        case Load => R(v) || (g.mxr && X(v))
        case Store => R(v) && W(v))
    && (if U(v) then smode ==> !acc.Fetch? && g.sum else smode)
  }

  // ---------------------------------------------------------------- the walk

  /** The part of the virtual page number that indexes the table of level i. */
  function Field(vm: Vm, vpn: nat, i: nat): (f: nat)
    ensures f < Pow2(vm.idxbits)
  {
    vpn / Pow2(Shift(vm, i)) % Pow2(vm.idxbits)
  }

  function PteAddr(vm: Vm, vpn: nat, base: nat, i: nat): nat {
    base + Field(vm, vpn, i) * vm.ptesize
  }

  function LoadPte(vm: Vm, m: Memory, a: nat): Option<Pte> {
    if vm.ptesize == 4 then
      if a / 4 in m then Some(m[a / 4]) else None
    else
      if a / 4 in m && a / 4 + 1 in m then Some(m[a / 4] + TWO32 * m[a / 4 + 1]) else None
  }

  /** What a walk finds: a usable leaf, a page fault, or an address no device answers. */
  datatype Found = Hit(level: nat, addr: nat, pte: Pte) | PageFault | BusFault(addr: nat)

  predicate Aligned(vm: Vm, v: Pte, i: nat) { Ppn(v) % Pow2(Shift(vm, i)) == 0 }

  predicate UsableLeaf(g: Regime, acc: Access, smode: bool, v: Pte, i: nat) {
    && Classify(v) == Leaf
    && Permitted(g, acc, smode, v)
    && Aligned(g.vm, v, i)
    && (g.faultOnAD ==> HasAD(v, acc))
  }

  /** The recursive translation of section 4.3.2 of the privileged architecture from level i down. */
  function WalkFrom(g: Regime, m: Memory, acc: Access, smode: bool, vpn: nat, base: nat, i: int): Found
    requires -1 <= i
    decreases i + 1
  {
    if i < 0 then PageFault
    else
      var a := PteAddr(g.vm, vpn, base, i);
      match LoadPte(g.vm, m, a)
      case None => BusFault(a)
      case Some(v) =>
        match Classify(v)
        case Invalid => PageFault
        case Pointer => WalkFrom(g, m, acc, smode, vpn, NextBase(v), i - 1)
        case Leaf => if UsableLeaf(g, acc, smode, v, i) then Hit(i, a, v) else PageFault
  }

  /** All address bits above the translated range repeat its top bit. */
  predicate Canonical(g: Regime, vpn: nat)
    requires g.Valid()
  {
    var bits := vpn / Pow2(g.HighBit() - 12) % Pow2(g.xlen - g.HighBit());
    bits == 0 || bits == Pow2(g.xlen - g.HighBit()) - 1
  }

  function Lookup(g: Regime, m: Memory, acc: Access, smode: bool, vpn: nat): Found
    requires g.Valid()
  {
    if Canonical(g, vpn) then WalkFrom(g, m, acc, smode, vpn, g.vm.ptbase, g.Top()) else PageFault
  }

  /** (ppn & ~mask) | (vpn & mask) */
  function Frame(vm: Vm, level: nat, ppn: nat, vpn: nat): nat {
    var p := Pow2(Shift(vm, level));
    ModLe(ppn, p);
    ppn - ppn % p + vpn % p
  }

  function PhysAddr(vm: Vm, level: nat, ppn: nat, va: nat): nat {
    FrameAddr(Frame(vm, level, ppn, va / 4096)) + va % 4096
  }

  datatype Outcome = Phys(addr: nat) | Trap(code: nat, tval: nat)

  function PageFaultCode(acc: Access): nat {
    match acc case Fetch => 12 case Load => 13 case Store => 15
  }

  function ToOutcome(g: Regime, f: Found, acc: Access, va: nat): Outcome {
    match f
    case Hit(level, _, pte) => Phys(PhysAddr(g.vm, level, Ppn(pte), va))
    case PageFault => Trap(PageFaultCode(acc), va)
    case BusFault(a) => Trap(13, a)
  }

  /** The address or trap that a walk started now would give. */
  function Fresh(g: Regime, m: Memory, acc: Access, smode: bool, va: nat): Outcome
    requires g.Valid()
  {
    ToOutcome(g, Lookup(g, m, acc, smode, va / 4096), acc, va)
  }

  /** Memory after the walk: the accessed and dirty bits are written back into a leaf that lacks them. */
  function WriteBack(m: Memory, f: Found, acc: Access): Memory {
    match f
    case Hit(_, a, v) => if HasAD(v, acc) then m else m[a / 4 := SetAD(v, acc) % TWO32]
    case _ => m
  }

  // ---------------------------------------------------------------- entries modulo A and D

  ghost predicate SamePte(g: Regime, v: Pte, v': Pte) {
    if g.faultOnAD then v == v' else EqualButAD(v, v')
  }

  lemma {:induction false} EntryBits(v: Pte, h: nat, d: nat, a: nat, l: nat)
    requires v == 256 * h + 128 * d + 64 * a + l && d < 2 && a < 2 && l < 64
    ensures v % 64 == l && v / 256 == h && A(v) == (a == 1) && D(v) == (d == 1)
  {
    QuotientIs(v, 64, 4 * h + 2 * d + a, l);
    QuotientIs(v, 128, 2 * h + d, 64 * a + l);
    QuotientIs(v, 256, h, 128 * d + 64 * a + l);
  }

  lemma {:induction false} LowFlags(v: Pte)
    ensures V(v) == V(v % 64) && R(v) == R(v % 64) && W(v) == W(v % 64) && X(v) == X(v % 64) && U(v) == U(v % 64)
  {
    ModMod(v, 2, 32);
    ModMod(v, 4, 16);
    ModMod(v, 8, 8);
    ModMod(v, 16, 4);
    ModMod(v, 32, 2);
  }

  /** Neither A nor D decides what an entry is, where it points or whom it admits. */
  lemma {:induction false} ADIsNotDecisive(g: Regime, acc: Access, smode: bool, v: Pte, v': Pte)
    requires EqualButAD(v, v')
    ensures Classify(v) == Classify(v') && Ppn(v) == Ppn(v')
    ensures Permitted(g, acc, smode, v) == Permitted(g, acc, smode, v')
  {
    LowFlags(v);
    LowFlags(v');
    DivDiv(v, 256, 4);
    DivDiv(v', 256, 4);
  }

  /** The write-back changes nothing but A and D, and is complete. */
  lemma {:induction false} SetADOnlyAD(v: Pte, acc: Access)
    ensures EqualButAD(v, SetAD(v, acc))
    ensures HasAD(SetAD(v, acc), acc)
  {
    var q, l := v / 64, v % 64;
    var h, d, a := q / 2 / 2, q / 2 % 2, q % 2;
    EntryBits(v, h, d, a, l);
    EntryBits(SetAD(v, acc), h, if acc.Store? then 1 else d, 1, l);
  }

  /** It stays inside the entry's low word. */
  lemma {:induction false} SetADInLowWord(v: Pte, acc: Access)
    ensures SetAD(v, acc) / TWO32 == v / TWO32
  {
    SetADOnlyAD(v, acc);
    DivDiv(v, 256, 0x100_0000);
    DivDiv(SetAD(v, acc), 256, 0x100_0000);
  }

  /** Entries sit at multiples of their size. */
  lemma {:induction false} PteAddrAligned(g: Regime, vpn: nat, base: nat, i: nat)
    requires g.Valid() && ValidBase(base)
    ensures PteAddr(g.vm, vpn, base, i) % g.vm.ptesize == 0
  {
    var f := Field(g.vm, vpn, i);
    if g.vm.ptesize == 4 {
      QuotientIs(base + f * 4, 4, 1024 * (base / 4096) + f, 0);
    } else {
      QuotientIs(base + f * 8, 8, 512 * (base / 4096) + f, 0);
    }
  }

  /** Along the table path of vpn, m' holds the entries of m up to the A and D bits. */
  ghost predicate SamePath(g: Regime, m: Memory, m': Memory, vpn: nat, base: nat, i: int)
    requires -1 <= i
    decreases i + 1
  {
    i >= 0 ==>
      var a := PteAddr(g.vm, vpn, base, i);
      match (LoadPte(g.vm, m, a), LoadPte(g.vm, m', a))
      case (None, None) => true
      case (Some(v), Some(v')) =>
        SamePte(g, v, v') && (Classify(v) == Pointer ==> SamePath(g, m, m', vpn, NextBase(v), i - 1))
      case _ => false
  }

  /** The two findings lead to the same physical address or trap. */
  ghost predicate SameFinding(g: Regime, f: Found, f': Found) {
    match (f, f')
    case (Hit(l, a, v), Hit(l', a', v')) => l == l' && a == a' && SamePte(g, v, v')
    case _ => f == f'
  }

  lemma {:induction false} SamePathSameWalk(g: Regime, m: Memory, m': Memory, acc: Access, smode: bool, vpn: nat, base: nat, i: int)
    requires -1 <= i
    requires SamePath(g, m, m', vpn, base, i)
    ensures SameFinding(g, WalkFrom(g, m, acc, smode, vpn, base, i), WalkFrom(g, m', acc, smode, vpn, base, i))
    decreases i + 1
  {
    if i >= 0 {
      var a := PteAddr(g.vm, vpn, base, i);
      match (LoadPte(g.vm, m, a), LoadPte(g.vm, m', a)) {
        case (Some(v), Some(v')) =>
          ADIsNotDecisive(g, acc, smode, v, v');
          if Classify(v) == Pointer {
            SamePathSameWalk(g, m, m', acc, smode, vpn, NextBase(v), i - 1);
          }
        case _ =>
      }
    }
  }

  /** m' may replace m without changing any translation: every entry on every path is the same up to A and D. */
  ghost predicate SameTables(g: Regime, m: Memory, m': Memory)
    requires g.Valid()
  {
    forall vpn: nat :: SamePath(g, m, m', vpn, g.vm.ptbase, g.Top())
  }

  /** A and D never decide a translation: equal tables up to A and D give equal addresses and traps. */
  lemma {:induction false} SameTablesSameOutcome(g: Regime, m: Memory, m': Memory, acc: Access, smode: bool, va: nat)
    requires g.Valid() && SameTables(g, m, m')
    ensures Fresh(g, m, acc, smode, va) == Fresh(g, m', acc, smode, va)
    ensures SameFinding(g, Lookup(g, m, acc, smode, va / 4096), Lookup(g, m', acc, smode, va / 4096))
  {
    var vpn := va / 4096;
    assert SamePath(g, m, m', vpn, g.vm.ptbase, g.Top());
    SamePathSameWalk(g, m, m', acc, smode, vpn, g.vm.ptbase, g.Top());
    match (Lookup(g, m, acc, smode, vpn), Lookup(g, m', acc, smode, vpn)) {
      case (Hit(_, _, v), Hit(_, _, v')) => ADIsNotDecisive(g, acc, smode, v, v');
      case _ =>
    }
  }

  // ---------------------------------------------------------------- what a walk finds, and its write-back

  /** A hit names an entry that memory holds and that is usable at that level. */
  lemma {:induction false} HitIsLoaded(g: Regime, m: Memory, acc: Access, smode: bool, vpn: nat, base: nat, i: int)
    requires g.Valid() && ValidBase(base) && -1 <= i
    ensures var f := WalkFrom(g, m, acc, smode, vpn, base, i);
            f.Hit? ==>
              && f.level <= i
              && f.addr % g.vm.ptesize == 0
              && LoadPte(g.vm, m, f.addr) == Some(f.pte)
              && UsableLeaf(g, acc, smode, f.pte, f.level)
    decreases i + 1
  {
    if i >= 0 {
      var a := PteAddr(g.vm, vpn, base, i);
      PteAddrAligned(g, vpn, base, i);
      match LoadPte(g.vm, m, a) {
        case Some(v) =>
          if Classify(v) == Pointer {
            HitIsLoaded(g, m, acc, smode, vpn, NextBase(v), i - 1);
          }
        case None =>
      }
    }
  }

  /** Loading any entry after a write-back gives the old entry up to A and D. */
  lemma {:induction false} LoadAfterWriteBack(g: Regime, m: Memory, acc: Access, w: nat, v: Pte, a: nat)
    requires g.Valid() && !g.faultOnAD
    requires w % g.vm.ptesize == 0 && a % g.vm.ptesize == 0
    requires LoadPte(g.vm, m, w) == Some(v)
    ensures var m' := m[w / 4 := SetAD(v, acc) % TWO32];
            match (LoadPte(g.vm, m, a), LoadPte(g.vm, m', a))
            case (None, None) => true
            case (Some(x), Some(x')) => SamePte(g, x, x') && (a == w ==> x' == SetAD(v, acc))
            case _ => false
  {
    SetADOnlyAD(v, acc);
    var m' := m[w / 4 := SetAD(v, acc) % TWO32];
    if a == w {
      LowWordUpdate(g, m, acc, w, v);
    } else {
      SlotsApart(g.vm.ptesize, w, a);
      assert LoadPte(g.vm, m', a) == LoadPte(g.vm, m, a);
    }
  }

  lemma {:induction false} LowWordUpdate(g: Regime, m: Memory, acc: Access, w: nat, v: Pte)
    requires g.Valid() && LoadPte(g.vm, m, w) == Some(v)
    ensures LoadPte(g.vm, m[w / 4 := SetAD(v, acc) % TWO32], w) == Some(SetAD(v, acc))
  {
    SetADInLowWord(v, acc);
    if g.vm.ptesize == 8 {
      QuotientIs(v, TWO32, m[w / 4 + 1], m[w / 4]);
    } else {
      QuotientIs(v, TWO32, 0, m[w / 4]);
    }
  }

  lemma {:induction false} SlotsApart(size: nat, w: nat, a: nat)
    requires size == 4 || size == 8
    requires w % size == 0 && a % size == 0 && w != a
    ensures a / 4 != w / 4
    ensures size == 8 ==> a / 4 + 1 != w / 4
  {
  }

  lemma {:induction false} WriteBackSamePath(g: Regime, m: Memory, acc: Access, w: nat, v: Pte, vpn: nat, base: nat, i: int)
    requires g.Valid() && !g.faultOnAD && ValidBase(base) && -1 <= i
    requires w % g.vm.ptesize == 0
    requires LoadPte(g.vm, m, w) == Some(v)
    ensures SamePath(g, m, m[w / 4 := SetAD(v, acc) % TWO32], vpn, base, i)
    decreases i + 1
  {
    if i >= 0 {
      var a := PteAddr(g.vm, vpn, base, i);
      PteAddrAligned(g, vpn, base, i);
      LoadAfterWriteBack(g, m, acc, w, v, a);
      match LoadPte(g.vm, m, a) {
        case Some(x) =>
          if Classify(x) == Pointer {
            WriteBackSamePath(g, m, acc, w, v, vpn, NextBase(x), i - 1);
          }
        case None =>
      }
    }
  }

  lemma {:induction false} SamePathRefl(g: Regime, m: Memory, vpn: nat, base: nat, i: int)
    requires -1 <= i
    ensures SamePath(g, m, m, vpn, base, i)
    decreases i + 1
  {
    if i >= 0 {
      match LoadPte(g.vm, m, PteAddr(g.vm, vpn, base, i)) {
        case Some(v) =>
          if Classify(v) == Pointer {
            SamePathRefl(g, m, vpn, NextBase(v), i - 1);
          }
        case None =>
      }
    }
  }

  /** The words that a walk of vpn may read. */
  ghost function Reads(g: Regime, m: Memory, vpn: nat, base: nat, i: int): set<nat>
    requires -1 <= i
    decreases i + 1
  {
    if i < 0 then {}
    else
      var a := PteAddr(g.vm, vpn, base, i);
      var here := {a / 4, a / 4 + 1};
      match LoadPte(g.vm, m, a)
      case Some(v) => if Classify(v) == Pointer then here + Reads(g, m, vpn, NextBase(v), i - 1) else here
      case None => here
  }

  lemma {:induction false} LoadElsewhere(vm: Vm, m: Memory, w: nat, x: Word, a: nat)
    requires w != a / 4 && w != a / 4 + 1
    ensures LoadPte(vm, m[w := x], a) == LoadPte(vm, m, a)
  {
  }

  lemma {:induction false} StoreOffPath(g: Regime, m: Memory, w: nat, x: Word, vpn: nat, base: nat, i: int)
    requires -1 <= i && w !in Reads(g, m, vpn, base, i)
    ensures SamePath(g, m, m[w := x], vpn, base, i)
    decreases i + 1
  {
    if i >= 0 {
      var a := PteAddr(g.vm, vpn, base, i);
      LoadElsewhere(g.vm, m, w, x, a);
      match LoadPte(g.vm, m, a) {
        case Some(v) =>
          if Classify(v) == Pointer {
            StoreOffPath(g, m, w, x, vpn, NextBase(v), i - 1);
          }
        case None =>
      }
    }
  }

  /** A store to a word that no walk reads changes no translation. */
  lemma {:induction false} StoreOutsideTables(g: Regime, m: Memory, w: nat, x: Word)
    requires g.Valid()
    requires forall vpn: nat :: w !in Reads(g, m, vpn, g.vm.ptbase, g.Top())
    ensures SameTables(g, m, m[w := x])
  {
    var m' := m[w := x];
    forall vpn: nat
      ensures SamePath(g, m, m', vpn, g.vm.ptbase, g.Top())
    {
      StoreOffPath(g, m, w, x, vpn, g.vm.ptbase, g.Top());
    }
  }

  /** Every walk leaves memory in a state in which all translations are as before. */
  lemma {:induction false} WriteBackKeepsTables(g: Regime, m: Memory, acc: Access, smode: bool, vpn: nat)
    requires g.Valid()
    ensures SameTables(g, m, WriteBack(m, Lookup(g, m, acc, smode, vpn), acc))
  {
    var f := Lookup(g, m, acc, smode, vpn);
    HitIsLoaded(g, m, acc, smode, vpn, g.vm.ptbase, g.Top());
    forall vpn': nat
      ensures SamePath(g, m, WriteBack(m, f, acc), vpn', g.vm.ptbase, g.Top())
    {
      if f.Hit? && !HasAD(f.pte, acc) {
        WriteBackSamePath(g, m, acc, f.addr, f.pte, vpn', g.vm.ptbase, g.Top());
      } else {
        SamePathRefl(g, m, vpn', g.vm.ptbase, g.Top());
      }
    }
  }

  /** After its write-back, an entry has the bits it needs. */
  lemma {:induction false} WrittenBackIsDone(g: Regime, m: Memory, acc: Access, f: Found)
    requires g.Valid() && f.Hit? && f.addr % g.vm.ptesize == 0 && LoadPte(g.vm, m, f.addr) == Some(f.pte)
    requires HasAD(f.pte, acc) || !g.faultOnAD
    ensures LoadPte(g.vm, WriteBack(m, f, acc), f.addr).Some?
    ensures HasAD(LoadPte(g.vm, WriteBack(m, f, acc), f.addr).value, acc)
  {
    if !HasAD(f.pte, acc) {
      LoadAfterWriteBack(g, m, acc, f.addr, f.pte, f.addr);
      SetADOnlyAD(f.pte, acc);
    }
  }

  /** A walk that succeeds leaves the bits of its leaf set, so repeating it finds the same and stores nothing more; a walk
      that faults stores nothing at all. */
  lemma {:induction false} RepeatedWalk(g: Regime, m: Memory, acc: Access, smode: bool, va: nat)
    requires g.Valid()
    ensures var f := Lookup(g, m, acc, smode, va / 4096);
            var m' := WriteBack(m, f, acc);
            var f' := Lookup(g, m', acc, smode, va / 4096);
            && Fresh(g, m', acc, smode, va) == Fresh(g, m, acc, smode, va)
            && WriteBack(m', f', acc) == m'
            && (f.Hit? ==> LoadPte(g.vm, m', f.addr).Some? && HasAD(LoadPte(g.vm, m', f.addr).value, acc))
            && (Fresh(g, m, acc, smode, va).Trap? ==> m' == m)
  {
    var f := Lookup(g, m, acc, smode, va / 4096);
    var m' := WriteBack(m, f, acc);
    WriteBackKeepsTables(g, m, acc, smode, va / 4096);
    SameTablesSameOutcome(g, m, m', acc, smode, va);
    HitIsLoaded(g, m, acc, smode, va / 4096, g.vm.ptbase, g.Top());
    HitIsLoaded(g, m', acc, smode, va / 4096, g.vm.ptbase, g.Top());
    if f.Hit? {
      WrittenBackIsDone(g, m, acc, f);
    }
  }

  // ---------------------------------------------------------------- superpages

  /** Addresses that agree above the leaf's level walk the same tables to the same leaf. */
  lemma {:induction false} SameSuperpageSameWalk(g: Regime, m: Memory, acc: Access, smode: bool, vpn: nat, vpn': nat, base: nat, i: int, level: nat)
    requires -1 <= i
    requires vpn / Pow2(Shift(g.vm, level)) == vpn' / Pow2(Shift(g.vm, level))
    requires WalkFrom(g, m, acc, smode, vpn, base, i).Hit?
    requires WalkFrom(g, m, acc, smode, vpn, base, i).level == level
    ensures WalkFrom(g, m, acc, smode, vpn', base, i) == WalkFrom(g, m, acc, smode, vpn, base, i)
    decreases i + 1
  {
    HitLevel(g, m, acc, smode, vpn, base, i);
    ShiftMonotone(g.vm, level, i);
    SameHighBits(vpn, vpn', Shift(g.vm, level), Shift(g.vm, i));
    var v := LoadPte(g.vm, m, PteAddr(g.vm, vpn, base, i)).value;
    if Classify(v) == Pointer {
      SameSuperpageSameWalk(g, m, acc, smode, vpn, vpn', NextBase(v), i - 1, level);
    }
  }

  lemma {:induction false} HitLevel(g: Regime, m: Memory, acc: Access, smode: bool, vpn: nat, base: nat, i: int)
    requires -1 <= i
    requires WalkFrom(g, m, acc, smode, vpn, base, i).Hit?
    ensures 0 <= WalkFrom(g, m, acc, smode, vpn, base, i).level <= i
    decreases i + 1
  {
    var v := LoadPte(g.vm, m, PteAddr(g.vm, vpn, base, i)).value;
    if Classify(v) == Pointer {
      HitLevel(g, m, acc, smode, vpn, NextBase(v), i - 1);
    }
  }

  /** The offset of va in a page of 2^s frames. */
  lemma {:induction false} PageOffset(va: nat, p: nat)
    requires p > 0
    ensures va % (4096 * p) == va / 4096 % p * 4096 + va % 4096
    ensures va / (4096 * p) == va / 4096 / p
  {
    SplitTwice(va, 4096, p);
    QuotientIs(va, 4096 * p, va / 4096 / p, 4096 * (va / 4096 % p) + va % 4096);
  }

  lemma {:induction false} FrameNumbersSplit(s: nat)
    requires s <= 52
    ensures 0x10_0000_0000_0000 == Pow2(s) * Pow2(52 - s)
  {
    Pow2Sum(s, 52 - s);
    Pow2Is52();
  }

  /** An aligned leaf maps va to the frame's base plus va's offset in the superpage. */
  lemma {:induction false} PhysAddrIsDisplacement(vm: Vm, level: nat, ppn: nat, va: nat)
    requires Shift(vm, level) <= 52
    requires ppn % Pow2(Shift(vm, level)) == 0
    ensures PhysAddr(vm, level, ppn, va) == FrameAddr(ppn) + va % (4096 * Pow2(Shift(vm, level)))
  {
    var s := Shift(vm, level);
    FrameOffset(s, ppn, va / 4096 % Pow2(s));
    PageOffset(va, Pow2(s));
  }

  /** Frame low of the aligned superpage that starts at frame n. */
  lemma {:induction false} FrameOffset(s: nat, n: nat, low: nat)
    requires s <= 52 && low < Pow2(s) && n % Pow2(s) == 0
    ensures FrameAddr(n + low) == FrameAddr(n) + low * 4096
  {
    FrameNumbersSplit(s);
    AlignedSum(n, low, Pow2(s), Pow2(52 - s), 0x10_0000_0000_0000);
  }

  lemma {:induction false} DisplacementIn(vm: Vm, level: nat, ppn: nat, va: nat, va': nat)
    requires Shift(vm, level) <= 52 && ppn % Pow2(Shift(vm, level)) == 0
    requires va / 4096 / Pow2(Shift(vm, level)) == va' / 4096 / Pow2(Shift(vm, level))
    ensures PhysAddr(vm, level, ppn, va') - PhysAddr(vm, level, ppn, va) == va' - va
  {
    var p := Pow2(Shift(vm, level));
    PhysAddrIsDisplacement(vm, level, ppn, va);
    PhysAddrIsDisplacement(vm, level, ppn, va');
    PageOffset(va, p);
    PageOffset(va', p);
    SameQuotient(va, va', 4096 * p);
  }

  lemma {:induction false} SameSuperpageSameLeaf(g: Regime, m: Memory, acc: Access, smode: bool, vpn: nat, vpn': nat)
    requires g.Valid()
    requires Lookup(g, m, acc, smode, vpn).Hit?
    requires var p := Pow2(Shift(g.vm, Lookup(g, m, acc, smode, vpn).level)); vpn / p == vpn' / p
    ensures Lookup(g, m, acc, smode, vpn') == Lookup(g, m, acc, smode, vpn)
  {
    var f := Lookup(g, m, acc, smode, vpn);
    LeafLevelBound(g, m, acc, smode, vpn);
    SameCanonical(g, vpn, vpn', Shift(g.vm, f.level));
    SameSuperpageSameWalk(g, m, acc, smode, vpn, vpn', g.vm.ptbase, g.Top(), f.level);
  }

  lemma {:induction false} SameCanonical(g: Regime, vpn: nat, vpn': nat, s: nat)
    requires g.Valid() && s <= g.HighBit() - 12
    requires vpn / Pow2(s) == vpn' / Pow2(s)
    ensures Canonical(g, vpn) == Canonical(g, vpn')
  {
    SameHighBits(vpn, vpn', s, g.HighBit() - 12);
  }

  /** All addresses of one leaf superpage translate, with equal displacement. */
  lemma {:induction false} SuperpageDisplacement(g: Regime, m: Memory, acc: Access, smode: bool, va: nat, va': nat)
    requires g.Valid()
    requires Lookup(g, m, acc, smode, va / 4096).Hit?
    requires var p := Pow2(Shift(g.vm, Lookup(g, m, acc, smode, va / 4096).level)); va / 4096 / p == va' / 4096 / p
    ensures Fresh(g, m, acc, smode, va').Phys?
    ensures Fresh(g, m, acc, smode, va').addr - Fresh(g, m, acc, smode, va).addr == va' - va
  {
    var f := Lookup(g, m, acc, smode, va / 4096);
    LeafLevelBound(g, m, acc, smode, va / 4096);
    SameSuperpageSameLeaf(g, m, acc, smode, va / 4096, va' / 4096);
    DisplacementIn(g.vm, f.level, Ppn(f.pte), va, va');
  }

  lemma {:induction false} SameQuotient(x: nat, y: nat, d: nat)
    requires d > 0 && x / d == y / d
    ensures y % d - x % d == y - x
  {
    assert x == d * (x / d) + x % d;
    assert y == d * (y / d) + y % d;
  }

  lemma {:induction false} LeafLevelBound(g: Regime, m: Memory, acc: Access, smode: bool, vpn: nat)
    requires g.Valid() && Lookup(g, m, acc, smode, vpn).Hit?
    ensures var f := Lookup(g, m, acc, smode, vpn);
            && Shift(g.vm, f.level) <= g.HighBit() - 12
            && Shift(g.vm, f.level) <= 52
            && Aligned(g.vm, f.pte, f.level)
  {
    HitIsLoaded(g, m, acc, smode, vpn, g.vm.ptbase, g.Top());
    ShiftMonotone(g.vm, Lookup(g, m, acc, smode, vpn).level, g.vm.levels - 1);
    ShiftIsProduct(g.vm, g.vm.levels);
  }
}
