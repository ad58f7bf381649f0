/**
 The translation cache in front of the page walk (GenericMMU::translate_virtual_to_physical_addr) as a state
 machine, and its agreement with a fresh walk over every run.
 */
module Tlb {
  import opened Bits
  import opened Wrappers
  import opened PageTable

  datatype Slot = Slot(mode: nat, acc: Access, idx: nat)

  datatype Entry = Entry(ppn: nat, vpn: nat)

  /** What flush_tlb leaves in every slot: both fields all ones. */
  const EMPTY := Entry(TWO64 - 1, TWO64 - 1)

  function Slots(): set<Slot> {
    set mode, acc: Access, idx | 0 <= mode < 2 && 0 <= idx < 256 :: Slot(mode, acc, idx)
  }

  function Flushed(): map<Slot, Entry> { map s | s in Slots() :: EMPTY }

  /** paging is None while satp selects bare addressing. */
  datatype State = State(paging: Option<Regime>, mem: Memory, tlb: map<Slot, Entry>) {
    ghost predicate Valid() {
      && (paging.Some? ==> paging.value.Valid())
      && tlb.Keys == Slots()
    }
  }

  const MACHINE: nat := 3

  /** The cache keeps a page address in 32 bits: paddr & ~PGMASK with a 32-bit mask. */
  function CachedPage(paddr: nat): nat { paddr % TWO32 / 4096 * 4096 }

  /** Translation without the cache. */
  function Uncached(st: State, mode: nat, acc: Access, va: nat): Outcome
    requires st.paging.Some? ==> st.paging.value.Valid()
  {
    if st.paging.None? || mode == MACHINE then Phys(va) else Fresh(st.paging.value, st.mem, acc, mode == 1, va)
  }

  function SlotOf(mode: nat, acc: Access, va: nat): Slot { Slot(mode, acc, va / 4096 % 256) }

  lemma {:induction false} SlotExists(mode: nat, acc: Access, va: nat)
    requires mode < 2
    ensures SlotOf(mode, acc, va) in Slots()
  {
  }

  predicate UsesCache(st: State, mode: nat, acc: Access, va: nat)
    requires st.tlb.Keys == Slots()
  {
    && st.paging.Some?
    && mode < 2
    && (SlotExists(mode, acc, va); st.tlb[SlotOf(mode, acc, va)].vpn == va / 4096)
  }

  /** One translation: the answer and the state after it. */
  function Translate(st: State, mode: nat, acc: Access, va: nat): (Outcome, State)
    requires st.tlb.Keys == Slots() && (st.paging.Some? ==> st.paging.value.Valid())
    requires mode in {0, 1, MACHINE}
  {
    if st.paging.None? || mode == MACHINE then (Phys(va), st)
    else
      SlotExists(mode, acc, va);
      var slot := SlotOf(mode, acc, va);
      if st.tlb[slot].vpn == va / 4096 then (Phys(st.tlb[slot].ppn + va % 4096), st)
      else
        var g := st.paging.value;
        var f := Lookup(g, st.mem, acc, mode == 1, va / 4096);
        var out := ToOutcome(g, f, acc, va);
        var tlb' := if out.Phys? then st.tlb[slot := Entry(CachedPage(out.addr), va / 4096)] else st.tlb;
        (out, st.(mem := WriteBack(st.mem, f, acc), tlb := tlb'))
  }

  // ---------------------------------------------------------------- what every run keeps

  /** A used entry holds the low 32 bits of the frame that a walk of its page finds now. */
  ghost predicate EntrySound(g: Regime, mem: Memory, s: Slot, e: Entry)
    requires g.Valid()
  {
    e != EMPTY ==>
      && Lookup(g, mem, s.acc, s.mode == 1, e.vpn).Hit?
      && e.ppn == CachedPage(Fresh(g, mem, s.acc, s.mode == 1, e.vpn * 4096).addr)
  }

  ghost predicate Sound(st: State) {
    && st.Valid()
    && (st.paging.Some? ==> forall s :: s in st.tlb ==> EntrySound(st.paging.value, st.mem, s, st.tlb[s]))
  }

  /** The all-ones sentinel is no page number of a 64-bit address, so a flushed cache never hits; and it is sound. */
  lemma {:induction false} FlushedIsSound(paging: Option<Regime>, mem: Memory)
    requires paging.Some? ==> paging.value.Valid()
    ensures Sound(State(paging, mem, Flushed()))
    ensures forall mode: nat, acc: Access, va: nat | va < TWO64 :: !UsesCache(State(paging, mem, Flushed()), mode, acc, va)
  {
    forall mode: nat, acc: Access, va: nat | va < TWO64 && mode < 2
      ensures !UsesCache(State(paging, mem, Flushed()), mode, acc, va)
    {
      SlotExists(mode, acc, va);
      assert Flushed()[SlotOf(mode, acc, va)] == EMPTY;
    }
  }

  /** Replacing memory by one with the same tables keeps every entry sound. */
  lemma {:induction false} SameTablesKeepSound(st: State, mem': Memory)
    requires Sound(st)
    requires st.paging.Some? ==> SameTables(st.paging.value, st.mem, mem')
    ensures Sound(st.(mem := mem'))
  {
    if st.paging.Some? {
      var g := st.paging.value;
      forall s | s in st.tlb
        ensures EntrySound(g, mem', s, st.tlb[s])
      {
        SameTablesSameOutcome(g, st.mem, mem', s.acc, s.mode == 1, st.tlb[s].vpn * 4096);
      }
    }
  }

  lemma {:induction false} LowPart(page: nat, off: nat)
    requires page % 4096 == 0 && off < 4096
    ensures CachedPage(page) + off == (page + off) % TWO32
    ensures CachedPage(page + off) == CachedPage(page)
  {
    var q := page / 4096;
    ModKeepsLow(4096, q, 0x10_0000, 0);
    ModKeepsLow(4096, q, 0x10_0000, off);
    assert page % TWO32 == 4096 * (q % 0x10_0000);
    assert (page + off) % TWO32 == 4096 * (q % 0x10_0000) + off;
  }

  /** What the cache would answer for va, and what a walk of va would cache, in terms of the fresh walk. */
  lemma {:induction false} CacheOfFresh(g: Regime, mem: Memory, acc: Access, smode: bool, va: nat)
    requires g.Valid() && Lookup(g, mem, acc, smode, va / 4096).Hit?
    ensures var page := Fresh(g, mem, acc, smode, va / 4096 * 4096);
            && page.Phys?
            && CachedPage(page.addr) + va % 4096 == Fresh(g, mem, acc, smode, va).addr % TWO32
            && CachedPage(page.addr) == CachedPage(Fresh(g, mem, acc, smode, va).addr)
  {
    var f := Lookup(g, mem, acc, smode, va / 4096);
    QuotientIs(va / 4096 * 4096, 4096, va / 4096, 0);
    LowPart(FrameAddr(Frame(g.vm, f.level, Ppn(f.pte), va / 4096)), va % 4096);
  }

  /** The answer of the cache is the walk's answer cut to 32 bits, so it is the walk's answer exactly when
      that fits 32 bits; a miss answers as the walk. */
  ghost predicate AnswersAsWalk(st: State, mode: nat, acc: Access, va: nat)
    requires st.Valid() && mode in {0, 1, MACHINE}
  {
    var out := Translate(st, mode, acc, va).0;
    var walked := Uncached(st, mode, acc, va);
    && (UsesCache(st, mode, acc, va) ==> walked.Phys? && out == Phys(walked.addr % TWO32))
    && (out == walked <==> (UsesCache(st, mode, acc, va) ==> walked.addr < TWO32))
  }

  lemma {:induction false} TranslateAnswers(st: State, mode: nat, acc: Access, va: nat)
    requires Sound(st) && mode in {0, 1, MACHINE} && va < TWO64
    ensures AnswersAsWalk(st, mode, acc, va)
  {
    if UsesCache(st, mode, acc, va) {
      var slot := SlotOf(mode, acc, va);
      SlotExists(mode, acc, va);
      assert EntrySound(st.paging.value, st.mem, slot, st.tlb[slot]);
      CacheOfFresh(st.paging.value, st.mem, acc, mode == 1, va);
    }
    SameIffFits(Translate(st, mode, acc, va).0, Uncached(st, mode, acc, va), UsesCache(st, mode, acc, va));
  }

  lemma {:induction false} SameIffFits(out: Outcome, walked: Outcome, cached: bool)
    requires if cached then walked.Phys? && out == Phys(walked.addr % TWO32) else out == walked
    ensures out == walked <==> (cached ==> walked.addr < TWO32)
  {
  }

  lemma {:induction false} TranslateKeepsSound(st: State, mode: nat, acc: Access, va: nat)
    requires Sound(st) && mode in {0, 1, MACHINE}
    ensures Sound(Translate(st, mode, acc, va).1)
    ensures Translate(st, mode, acc, va).1.paging == st.paging
  {
    var (out, st') := Translate(st, mode, acc, va);
    if st' != st {
      var g, slot := st.paging.value, SlotOf(mode, acc, va);
      SlotExists(mode, acc, va);
      WriteBackKeepsTables(g, st.mem, acc, mode == 1, va / 4096);
      var mid := st.(mem := st'.mem);
      SameTablesKeepSound(st, st'.mem);
      if out.Phys? {
        SameTablesSameOutcome(g, st.mem, st'.mem, acc, mode == 1, va);
        CacheOfFresh(g, st'.mem, acc, mode == 1, va);
        assert EntrySound(g, st'.mem, slot, Entry(CachedPage(out.addr), va / 4096));
        forall s | s in st'.tlb
          ensures EntrySound(g, st'.mem, s, st'.tlb[s])
        {
          assert s != slot ==> EntrySound(g, mid.mem, s, mid.tlb[s]);
        }
      }
    }
  }

  // ---------------------------------------------------------------- runs

  /**
   What happens to the translation state: a translation; a store by anyone to memory; or a fence, that is any
   change of satp, SUM, MXR and memory that ends in flush_tlb.
   */
  datatype Event =
    | Access(mode: nat, acc: Access, va: nat)
    | Stores(mem: Memory)
    | Fence(paging: Option<Regime>, mem: Memory)

  /** Between fences, stores leave every page table entry alone up to its A and D bits. */
  ghost predicate Legal(st: State, e: Event) {
    match e
    case Access(mode, _, va) => mode in {0, 1, MACHINE} && va < TWO64
    case Stores(mem') => st.paging.Some? ==> st.paging.value.Valid() && SameTables(st.paging.value, st.mem, mem')
    case Fence(paging', _) => paging'.Some? ==> paging'.value.Valid()
  }

  ghost function Step(st: State, e: Event): State
    requires st.Valid() && Legal(st, e)
  {
    match e
    case Access(mode, acc, va) => Translate(st, mode, acc, va).1
    case Stores(mem') => st.(mem := mem')
    case Fence(paging', mem') => State(paging', mem', Flushed())
  }

  /** events[k] happens in states[k] and leads to states[k + 1]. */
  ghost predicate StepAt(states: seq<State>, events: seq<Event>, k: nat)
    requires k < |events| && |states| == |events| + 1
  {
    states[k].Valid() && Legal(states[k], events[k]) && states[k + 1] == Step(states[k], events[k])
  }

  /** A run that starts from a flushed cache. */
  ghost predicate IsRun(states: seq<State>, events: seq<Event>) {
    && |states| == |events| + 1
    && states[0].Valid() && states[0].tlb == Flushed()
    && forall k: nat | k < |events| :: StepAt(states, events, k)
  }

  lemma {:induction false} RunKeepsSound(states: seq<State>, events: seq<Event>, k: nat)
    requires IsRun(states, events) && k <= |events|
    ensures Sound(states[k])
  {
    if k > 0 {
      RunKeepsSound(states, events, k - 1);
      assert StepAt(states, events, k - 1);
      var st := states[k - 1];
      match events[k - 1] {
        case Access(mode, acc, va) => TranslateKeepsSound(st, mode, acc, va);
        case Stores(mem') => SameTablesKeepSound(st, mem');
        case Fence(paging', mem') => FlushedIsSound(paging', mem');
      }
    }
  }

  /**
   In every run that starts from a flushed cache, every translation answers exactly as a fresh walk of the
   current tables would, fault for fault, as long as the physical address fits 32 bits; and a cached answer
   differs from the fresh one exactly when it does not fit.
   */
  lemma {:induction false} CacheAgreesWithWalk(states: seq<State>, events: seq<Event>, k: nat)
    requires IsRun(states, events) && k < |events| && StepAt(states, events, k) && events[k].Access?
    ensures AnswersAsWalk(states[k], events[k].mode, events[k].acc, events[k].va)
  {
    RunKeepsSound(states, events, k);
    TranslateAnswers(states[k], events[k].mode, events[k].acc, events[k].va);
  }
}
