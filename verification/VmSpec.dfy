/**
 The translation process of section 4.3.2 of the privileged architecture, stated without the walk: the digits of the page
 number, the format of an entry bit by bit, the access rules, and a chain of entries from the root to a leaf. The walk
 finds exactly what it admits.
 */
module VmSpec {
  import opened Bits
  import opened Wrappers
  import opened PageTable

  // ---------------------------------------------------------------- the digits of a page number

  /** The weight of digit n to the base 2^idxbits. */
  function Place(vm: Vm, n: nat): (p: nat)
    ensures p >= 1
  {
    Pow2(n * vm.idxbits)
  }

  lemma {:induction false} Weight(vm: Vm, n: nat)
    ensures Place(vm, n) == Pow2(Shift(vm, n)) && Place(vm, n + 1) == Place(vm, n) * Pow2(vm.idxbits)
  {
    ShiftIsProduct(vm, n);
    ShiftIsProduct(vm, n + 1);
    Pow2Sum(Shift(vm, n), vm.idxbits);
  }

  /** The number whose n low digits are given. */
  function Value(vm: Vm, digits: seq<nat>, n: nat): nat
    requires n <= |digits|
  {
    if n == 0 then 0 else Value(vm, digits, n - 1) + digits[n - 1] * Place(vm, n - 1)
  }

  /** One digit per level, which together give the translated part of the page number. */
  ghost predicate IsDigits(vm: Vm, vpn: nat, digits: seq<nat>) {
    && |digits| == vm.levels
    && AreDigits(vm, digits)
    && Value(vm, digits, vm.levels) == vpn % Place(vm, vm.levels)
  }

  predicate AreDigits(vm: Vm, digits: seq<nat>) { forall i | 0 <= i < |digits| :: digits[i] < Pow2(vm.idxbits) }

  /** One digit more of a number. */
  lemma {:induction false} NextDigit(vpn: nat, p: nat, b: nat)
    requires p > 0 && b > 0
    ensures p * b > 0 && vpn % (p * b) == vpn % p + vpn / p % b * p
    ensures vpn % (p * b) / p == vpn / p % b && vpn % (p * b) % p == vpn % p
  {
    SplitTwice(vpn, p, b);
    QuotientIs(vpn, p * b, vpn / p / b, p * (vpn / p % b) + vpn % p);
    QuotientIs(vpn % (p * b), p, vpn / p % b, vpn % p);
  }

  /** A digit d above a number v below p. */
  lemma {:induction false} DigitAbove(v: nat, d: nat, p: nat, b: nat)
    requires v < p && d < b
    ensures v + d * p < p * b
  {
    MulLe(p, d, b - 1);
    assert p * (b - 1) == p * b - p && d * p == p * d;
  }

  lemma {:induction false} TopDigit(v: nat, d: nat, p: nat, b: nat, vpn: nat)
    requires v < p && b > 0 && p * b > 0 && v + d * p == vpn % (p * b)
    ensures d == vpn / p % b && v == vpn % p
  {
    NextDigit(vpn, p, b);
    assert d * p == p * d;
    QuotientIs(v + d * p, p, d, v);
  }

  function Digits(vm: Vm, vpn: nat): seq<nat> { seq(vm.levels, i requires i >= 0 => Field(vm, vpn, i)) }

  lemma {:induction false} FieldsAddUp(vm: Vm, vpn: nat, n: nat)
    requires n <= vm.levels
    ensures Value(vm, Digits(vm, vpn), n) == vpn % Place(vm, n)
  {
    if n > 0 {
      FieldsAddUp(vm, vpn, n - 1);
      Weight(vm, n - 1);
      NextDigit(vpn, Place(vm, n - 1), Pow2(vm.idxbits));
    } else {
      assert Pow2(0) == 1;
    }
  }

  /** The indices that the walk uses are the digits of the page number. */
  lemma {:induction false} FieldsAreDigits(vm: Vm, vpn: nat)
    ensures IsDigits(vm, vpn, Digits(vm, vpn))
  {
    FieldsAddUp(vm, vpn, vm.levels);
  }

  lemma {:induction false} ValueBound(vm: Vm, digits: seq<nat>, n: nat)
    requires n <= |digits| && AreDigits(vm, digits)
    ensures Value(vm, digits, n) < Place(vm, n)
  {
    if n > 0 {
      ValueBound(vm, digits, n - 1);
      Weight(vm, n - 1);
      DigitAbove(Value(vm, digits, n - 1), digits[n - 1], Place(vm, n - 1), Pow2(vm.idxbits));
    }
  }

  /** Digits are unique: digit i of the page number is the index of level i. */
  lemma {:induction false} DigitIsField(vm: Vm, vpn: nat, digits: seq<nat>, n: nat, i: nat)
    requires i < n <= |digits| && AreDigits(vm, digits) && Value(vm, digits, n) == vpn % Place(vm, n)
    ensures digits[i] == Field(vm, vpn, i)
    decreases n
  {
    Weight(vm, n - 1);
    ValueBound(vm, digits, n - 1);
    TopDigit(Value(vm, digits, n - 1), digits[n - 1], Place(vm, n - 1), Pow2(vm.idxbits), vpn);
    if i < n - 1 {
      DigitIsField(vm, vpn, digits, n - 1, i);
    }
  }

  // ---------------------------------------------------------------- entries and access rules

  predicate Bit(v: nat, k: nat)
    decreases k, v
  {
    if k == 0 then v % 2 == 1 else Bit(v / 2, k - 1)
  }

  /** An entry is, from bit 0 up: V, R, W, X, U, G, A, D, two bits for software, and the frame number. */
  function FrameNumber(v: Pte): nat { v / Pow2(10) }

  predicate IsPointer(v: Pte) { Bit(v, 0) && !Bit(v, 1) && !Bit(v, 2) && !Bit(v, 3) }

  /** Readable or executable, and not writable alone. */
  predicate IsLeaf(v: Pte) { Bit(v, 0) && (Bit(v, 1) || Bit(v, 3)) && (Bit(v, 2) ==> Bit(v, 1)) }

  /** A fetch needs X; a load R, or X where MXR makes executable pages readable; a store W. */
  predicate TypeAllows(g: Regime, acc: Access, v: Pte) {
    && (acc == Fetch ==> Bit(v, 3))
    && (acc == Load ==> Bit(v, 1) || (Bit(v, 3) && g.mxr))
    && (acc == Store ==> Bit(v, 2))
  }

  /** User mode needs U. Supervisor mode must not touch a U page, but with SUM it may load and store there. */
  predicate PrivilegeAllows(g: Regime, acc: Access, smode: bool, v: Pte) {
    && (!smode ==> Bit(v, 4))
    && (smode && Bit(v, 4) ==> g.sum && acc != Fetch)
  }

  /** With faults on A and D, these have to be set. */
  predicate Touched(g: Regime, acc: Access, v: Pte) {
    g.faultOnAD ==> Bit(v, 6) && (acc == Store ==> Bit(v, 7))
  }

  predicate IsUsable(g: Regime, acc: Access, smode: bool, v: Pte, level: nat) {
    && IsLeaf(v) && TypeAllows(g, acc, v) && PrivilegeAllows(g, acc, smode, v) && Touched(g, acc, v)
    && FrameNumber(v) % Place(g.vm, level) == 0
  }

  lemma {:induction false} BitAt(v: nat, k: nat)
    ensures Bit(v, k) <==> v / Pow2(k) % 2 == 1
  {
    if k > 0 {
      BitAt(v / 2, k - 1);
      DivDiv(v, 2, Pow2(k - 1));
    }
  }

  lemma {:induction false} FlagIsBit(v: nat, p: nat, k: nat)
    requires p == Pow2(k)
    ensures v % (p * 2) >= p <==> Bit(v, k)
  {
    BitAt(v, k);
    NextDigit(v, p, 2);
  }

  lemma {:induction false} FlagsAreBits(v: Pte)
    ensures V(v) == Bit(v, 0) && R(v) == Bit(v, 1) && W(v) == Bit(v, 2) && X(v) == Bit(v, 3) && U(v) == Bit(v, 4)
    ensures A(v) == Bit(v, 6) && D(v) == Bit(v, 7) && Ppn(v) == FrameNumber(v)
  {
    assert Pow2(2) == 4 && Pow2(3) == 8 && Pow2(4) == 16 && Pow2(6) == 64 && Pow2(7) == 128 && Pow2(10) == 1024;
    FlagIsBit(v, 1, 0);
    FlagIsBit(v, 2, 1);
    FlagIsBit(v, 4, 2);
    FlagIsBit(v, 8, 3);
    FlagIsBit(v, 16, 4);
    FlagIsBit(v, 64, 6);
    FlagIsBit(v, 128, 7);
  }

  /** The checks of the walk are the rules. */
  lemma {:induction false} ChecksAreRules(g: Regime, acc: Access, smode: bool, v: Pte, i: nat)
    ensures Classify(v) == Pointer <==> IsPointer(v)
    ensures UsableLeaf(g, acc, smode, v, i) <==> IsUsable(g, acc, smode, v, i)
  {
    FlagsAreBits(v);
    Weight(g.vm, i);
  }

  // ---------------------------------------------------------------- chains of entries

  /** The table that a pointer entry names: 64-bit addresses keep 52 bits of a frame number. */
  function TableAt(v: Pte): nat { FrameNumber(v) % Pow2(52) * 4096 }

  lemma {:induction false} NextBaseIsTable(v: Pte)
    ensures NextBase(v) == TableAt(v) == FrameAddr(Ppn(v))
  {
    Pow2Is52();
    FlagsAreBits(v);
  }

  /** chain lists the entry addresses from the table at base down: at level i the entry that digit i selects, and every
      entry but the last points to the table of the next one. */
  ghost predicate IsChain(g: Regime, m: Memory, digits: seq<nat>, base: nat, i: int, chain: seq<nat>)
    requires i < |digits|
    decreases |chain|
  {
    && 0 < |chain| <= i + 1
    && chain[0] == base + digits[i] * g.vm.ptesize
    && (|chain| > 1 ==>
          && LoadPte(g.vm, m, chain[0]).Some?
          && IsPointer(LoadPte(g.vm, m, chain[0]).value)
          && IsChain(g, m, digits, TableAt(LoadPte(g.vm, m, chain[0]).value), i - 1, chain[1..]))
  }

  /** The chain ends in v, a leaf for this access. */
  ghost predicate LeadsTo(
      g: Regime, m: Memory, acc: Access, smode: bool, digits: seq<nat>, base: nat, i: int, chain: seq<nat>, v: Pte)
    requires i < |digits|
  {
    && IsChain(g, m, digits, base, i, chain)
    && LoadPte(g.vm, m, chain[|chain| - 1]) == Some(v)
    && IsUsable(g, acc, smode, v, i + 1 - |chain|)
  }

  /** digits select what the walk of vpn selects. */
  ghost predicate Selects(vm: Vm, vpn: nat, digits: seq<nat>) {
    |digits| == vm.levels && forall i: nat | i < |digits| :: digits[i] == Field(vm, vpn, i)
  }

  lemma {:induction false} DigitsSelect(vm: Vm, vpn: nat, digits: seq<nat>)
    requires IsDigits(vm, vpn, digits)
    ensures Selects(vm, vpn, digits)
  {
    forall i: nat | i < |digits|
      ensures digits[i] == Field(vm, vpn, i)
    {
      DigitIsField(vm, vpn, digits, vm.levels, i);
    }
  }

  /** The same chain in the terms of the walk. */
  ghost predicate IsPath(g: Regime, m: Memory, vpn: nat, base: nat, i: int, chain: seq<nat>)
    decreases |chain|
  {
    && 0 < |chain| <= i + 1
    && chain[0] == PteAddr(g.vm, vpn, base, i)
    && (|chain| > 1 ==>
          && LoadPte(g.vm, m, chain[0]).Some?
          && Classify(LoadPte(g.vm, m, chain[0]).value) == Pointer
          && IsPath(g, m, vpn, NextBase(LoadPte(g.vm, m, chain[0]).value), i - 1, chain[1..]))
  }

  ghost predicate PathLeadsTo(
      g: Regime, m: Memory, acc: Access, smode: bool, vpn: nat, base: nat, i: int, chain: seq<nat>, v: Pte)
  {
    && IsPath(g, m, vpn, base, i, chain)
    && LoadPte(g.vm, m, chain[|chain| - 1]) == Some(v)
    && UsableLeaf(g, acc, smode, v, i + 1 - |chain|)
  }

  lemma {:induction false} PointersAgree(v: Pte)
    ensures Classify(v) == Pointer <==> IsPointer(v)
    ensures NextBase(v) == TableAt(v)
  {
    FlagsAreBits(v);
    NextBaseIsTable(v);
  }

  lemma {:induction false} PathIsChain(g: Regime, m: Memory, vpn: nat, digits: seq<nat>, base: nat, i: int, chain: seq<nat>)
    requires -1 <= i < |digits| && Selects(g.vm, vpn, digits)
    ensures IsPath(g, m, vpn, base, i, chain) <==> IsChain(g, m, digits, base, i, chain)
    decreases |chain|
  {
    if 0 < |chain| <= i + 1 {
      assert digits[i] == Field(g.vm, vpn, i);
      if LoadPte(g.vm, m, chain[0]).Some? && |chain| > 1 {
        var v := LoadPte(g.vm, m, chain[0]).value;
        PointersAgree(v);
        PathIsChain(g, m, vpn, digits, TableAt(v), i - 1, chain[1..]);
      }
    }
  }

  lemma {:induction false} LeadsAgree(
      g: Regime, m: Memory, acc: Access, smode: bool, vpn: nat, digits: seq<nat>, base: nat, i: int, chain: seq<nat>, v: Pte)
    requires -1 <= i < |digits| && Selects(g.vm, vpn, digits)
    ensures PathLeadsTo(g, m, acc, smode, vpn, base, i, chain, v) <==> LeadsTo(g, m, acc, smode, digits, base, i, chain, v)
  {
    PathIsChain(g, m, vpn, digits, base, i, chain);
    if 0 < |chain| <= i + 1 {
      ChecksAreRules(g, acc, smode, v, i + 1 - |chain|);
    }
  }

  /** A walk that succeeds has followed a chain of at most one entry per level to a usable leaf. */
  lemma {:induction false} WalkFollowsPath(g: Regime, m: Memory, acc: Access, smode: bool, vpn: nat, base: nat, i: int)
      returns (chain: seq<nat>)
    requires -1 <= i
    requires WalkFrom(g, m, acc, smode, vpn, base, i).Hit?
    ensures var f := WalkFrom(g, m, acc, smode, vpn, base, i);
            && PathLeadsTo(g, m, acc, smode, vpn, base, i, chain, f.pte)
            && f.level == i + 1 - |chain|
            && f.addr == chain[|chain| - 1]
    decreases i + 1
  {
    var a := PteAddr(g.vm, vpn, base, i);
    var v := LoadPte(g.vm, m, a).value;
    if Classify(v) == Pointer {
      var rest := WalkFollowsPath(g, m, acc, smode, vpn, NextBase(v), i - 1);
      chain := [a] + rest;
      assert chain[1..] == rest;
    } else {
      chain := [a];
    }
  }

  lemma {:induction false} PathGivesWalk(
      g: Regime, m: Memory, acc: Access, smode: bool, vpn: nat, base: nat, i: int, chain: seq<nat>, v: Pte)
    requires -1 <= i
    requires PathLeadsTo(g, m, acc, smode, vpn, base, i, chain, v)
    ensures WalkFrom(g, m, acc, smode, vpn, base, i) == Hit(i + 1 - |chain|, chain[|chain| - 1], v)
    decreases i + 1
  {
    if |chain| > 1 {
      PathGivesWalk(g, m, acc, smode, vpn, NextBase(LoadPte(g.vm, m, chain[0]).value), i - 1, chain[1..], v);
    }
  }

  /** A walk that succeeds has followed a chain of at most one entry per level to a usable leaf. */
  lemma {:induction false} WalkFollowsChain(
      g: Regime, m: Memory, acc: Access, smode: bool, vpn: nat, digits: seq<nat>, base: nat, i: int)
      returns (chain: seq<nat>)
    requires -1 <= i < |digits| && IsDigits(g.vm, vpn, digits)
    requires WalkFrom(g, m, acc, smode, vpn, base, i).Hit?
    ensures var f := WalkFrom(g, m, acc, smode, vpn, base, i);
            && LeadsTo(g, m, acc, smode, digits, base, i, chain, f.pte)
            && f.level == i + 1 - |chain|
            && f.addr == chain[|chain| - 1]
  {
    DigitsSelect(g.vm, vpn, digits);
    chain := WalkFollowsPath(g, m, acc, smode, vpn, base, i);
    LeadsAgree(g, m, acc, smode, vpn, digits, base, i, chain, WalkFrom(g, m, acc, smode, vpn, base, i).pte);
  }

  /** And whenever such a chain exists, the walk succeeds and finds exactly its leaf. */
  lemma {:induction false} ChainGivesWalk(
      g: Regime, m: Memory, acc: Access, smode: bool, vpn: nat, digits: seq<nat>, base: nat, i: int, chain: seq<nat>, v: Pte)
    requires -1 <= i < |digits| && IsDigits(g.vm, vpn, digits)
    requires LeadsTo(g, m, acc, smode, digits, base, i, chain, v)
    ensures WalkFrom(g, m, acc, smode, vpn, base, i) == Hit(i + 1 - |chain|, chain[|chain| - 1], v)
  {
    DigitsSelect(g.vm, vpn, digits);
    LeadsAgree(g, m, acc, smode, vpn, digits, base, i, chain, v);
    PathGivesWalk(g, m, acc, smode, vpn, base, i, chain, v);
  }

  // ---------------------------------------------------------------- the theorem

  /** An address of xlen bits that repeats the top bit of its translated part. */
  predicate SignExtended(g: Regime, va: nat) {
    var n := 12 + g.vm.levels * g.vm.idxbits;
    n >= 1 && (va < Pow2(n - 1) || va + Pow2(n - 1) >= Pow2(g.xlen))
  }

  lemma {:induction false} TopBits(va: nat, p: nat, q: nat)
    requires p > 0 && q > 0 && va < p * q
    ensures (va / p % q == 0 || va / p % q == q - 1) <==> (va < p || va + p >= p * q)
  {
    var bits := va / p;
    assert va == p * bits + va % p;
    assert bits < q by {
      if bits >= q {
        MulLe(p, q, bits);
        assert false;
      }
    }
    QuotientIs(bits, q, 0, bits);
    assert p * (q - 1) == p * q - p;
    if 0 < bits < q - 1 {
      MulLe(p, 1, bits);
      MulLe(p, bits + 1, q - 1);
      assert p * (bits + 1) == p * bits + p;
    }
  }

  lemma {:induction false} CanonicalIff(g: Regime, va: nat)
    requires g.Valid() && va < Pow2(g.xlen)
    ensures Canonical(g, va / 4096) <==> SignExtended(g, va)
  {
    ShiftIsProduct(g.vm, g.vm.levels);
    var k := g.HighBit();
    Pow2Sum(k, g.xlen - k);
    assert Pow2(12) == 4096;
    ShiftShift(va, 12, k - 12);
    TopBits(va, Pow2(k), Pow2(g.xlen - k));
  }

  /** The size of the page that a leaf of a level maps. */
  function PageSize(vm: Vm, level: nat): (s: nat)
    ensures s > 0
  {
    4096 * Place(vm, level)
  }

  /** va lies in the page that the chain's leaf v maps, and pa at the same place of its frame. */
  ghost predicate Maps(
      g: Regime, m: Memory, acc: Access, smode: bool, va: nat, pa: nat, digits: seq<nat>, chain: seq<nat>, v: Pte)
  {
    && IsDigits(g.vm, va / 4096, digits)
    && LeadsTo(g, m, acc, smode, digits, g.vm.ptbase, g.vm.levels - 1, chain, v)
    && pa == TableAt(v) + va % PageSize(g.vm, g.vm.levels - |chain|)
  }

  lemma {:induction false} HitAddress(g: Regime, m: Memory, acc: Access, smode: bool, va: nat)
    requires g.Valid() && Lookup(g, m, acc, smode, va / 4096).Hit?
    ensures var f := Lookup(g, m, acc, smode, va / 4096);
            Fresh(g, m, acc, smode, va) == Phys(TableAt(f.pte) + va % PageSize(g.vm, f.level))
  {
    var f := Lookup(g, m, acc, smode, va / 4096);
    LeafLevelBound(g, m, acc, smode, va / 4096);
    PhysAddrIsDisplacement(g.vm, f.level, Ppn(f.pte), va);
    Weight(g.vm, f.level);
    NextBaseIsTable(f.pte);
  }

  lemma {:induction false} PhysIffHit(g: Regime, m: Memory, acc: Access, smode: bool, va: nat)
    requires g.Valid()
    ensures Fresh(g, m, acc, smode, va).Phys? <==> Lookup(g, m, acc, smode, va / 4096).Hit?
  {
  }

  lemma {:induction false} HitHasChain(g: Regime, m: Memory, acc: Access, smode: bool, vpn: nat)
      returns (digits: seq<nat>, chain: seq<nat>)
    requires g.Valid() && Lookup(g, m, acc, smode, vpn).Hit?
    ensures IsDigits(g.vm, vpn, digits)
    ensures LeadsTo(g, m, acc, smode, digits, g.vm.ptbase, g.vm.levels - 1, chain, Lookup(g, m, acc, smode, vpn).pte)
    ensures Lookup(g, m, acc, smode, vpn).level == g.vm.levels - |chain|
  {
    digits := Digits(g.vm, vpn);
    FieldsAreDigits(g.vm, vpn);
    chain := WalkFollowsChain(g, m, acc, smode, vpn, digits, g.vm.ptbase, g.Top());
  }

  lemma {:induction false} ChainHasHit(
      g: Regime, m: Memory, acc: Access, smode: bool, vpn: nat, digits: seq<nat>, chain: seq<nat>, v: Pte)
    requires g.Valid() && Canonical(g, vpn) && IsDigits(g.vm, vpn, digits)
    requires LeadsTo(g, m, acc, smode, digits, g.vm.ptbase, g.vm.levels - 1, chain, v)
    ensures Lookup(g, m, acc, smode, vpn) == Hit(g.vm.levels - |chain|, chain[|chain| - 1], v)
  {
    ChainGivesWalk(g, m, acc, smode, vpn, digits, g.vm.ptbase, g.Top(), chain, v);
  }

  lemma {:induction false} PhysIsMapped(g: Regime, m: Memory, acc: Access, smode: bool, va: nat, pa: nat)
      returns (digits: seq<nat>, chain: seq<nat>, v: Pte)
    requires g.Valid() && Lookup(g, m, acc, smode, va / 4096).Hit?
    requires pa == TableAt(Lookup(g, m, acc, smode, va / 4096).pte) +
                   va % PageSize(g.vm, Lookup(g, m, acc, smode, va / 4096).level)
    ensures Maps(g, m, acc, smode, va, pa, digits, chain, v)
  {
    digits, chain := HitHasChain(g, m, acc, smode, va / 4096);
    v := Lookup(g, m, acc, smode, va / 4096).pte;
  }

  lemma {:induction false} MappedIsHit(
      g: Regime, m: Memory, acc: Access, smode: bool, va: nat, pa: nat, digits: seq<nat>, chain: seq<nat>, v: Pte)
    requires g.Valid() && Canonical(g, va / 4096) && Maps(g, m, acc, smode, va, pa, digits, chain, v)
    ensures var f := Lookup(g, m, acc, smode, va / 4096); f.Hit? && f.pte == v && f.level == g.vm.levels - |chain|
  {
    ChainHasHit(g, m, acc, smode, va / 4096, digits, chain, v);
  }

  /** For every paging mode, memory, access and address: the walk gives the physical address pa if and only if the address
      is sign-extended and its digits lead through pointer entries to a leaf that admits the access and maps it to pa. */
  lemma {:induction false} TranslatesIffChain(g: Regime, m: Memory, acc: Access, smode: bool, va: nat, pa: nat)
    requires g.Valid() && va < Pow2(g.xlen)
    ensures Fresh(g, m, acc, smode, va) == Phys(pa) <==>
              SignExtended(g, va) && exists digits, chain, v :: Maps(g, m, acc, smode, va, pa, digits, chain, v)
  {
    CanonicalIff(g, va);
    PhysIffHit(g, m, acc, smode, va);
    if Lookup(g, m, acc, smode, va / 4096).Hit? {
      HitAddress(g, m, acc, smode, va);
      if Fresh(g, m, acc, smode, va) == Phys(pa) {
        var digits, chain, v := PhysIsMapped(g, m, acc, smode, va, pa);
      }
    }
    if SignExtended(g, va) {
      forall digits, chain, v | Maps(g, m, acc, smode, va, pa, digits, chain, v)
        ensures Fresh(g, m, acc, smode, va) == Phys(pa)
      {
        MappedIsHit(g, m, acc, smode, va, pa, digits, chain, v);
        HitAddress(g, m, acc, smode, va);
      }
    }
  }

  // ---------------------------------------------------------------- faults

  lemma {:induction false} BusFaultIsUnanswered(g: Regime, m: Memory, acc: Access, smode: bool, vpn: nat, base: nat, i: int)
    requires -1 <= i && WalkFrom(g, m, acc, smode, vpn, base, i).BusFault?
    ensures LoadPte(g.vm, m, WalkFrom(g, m, acc, smode, vpn, base, i).addr).None?
    decreases i + 1
  {
    var a := PteAddr(g.vm, vpn, base, i);
    if LoadPte(g.vm, m, a).Some? {
      BusFaultIsUnanswered(g, m, acc, smode, vpn, NextBase(LoadPte(g.vm, m, a).value), i - 1);
    }
  }

  /** An address that does not translate raises the page fault of its access, with the address as trap value; or, where no
      device answers for an entry, a load page fault with the entry's address. */
  lemma {:induction false} FaultsAreNamed(g: Regime, m: Memory, acc: Access, smode: bool, va: nat)
    requires g.Valid() && Fresh(g, m, acc, smode, va).Trap?
    ensures var t := Fresh(g, m, acc, smode, va);
            || (t.tval == va && (acc == Fetch ==> t.code == 12) && (acc == Load ==> t.code == 13) && (acc == Store ==> t.code == 15))
            || (t.code == 13 && LoadPte(g.vm, m, t.tval).None?)
  {
    if Lookup(g, m, acc, smode, va / 4096).BusFault? {
      BusFaultIsUnanswered(g, m, acc, smode, va / 4096, g.vm.ptbase, g.Top());
    }
  }
}
