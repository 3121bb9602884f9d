/**
 The loader's own code, on arrays and 32-bit sizes: layout_sections, layout_symtab, move_module and
 the copying loop of add_kallsyms.
 */
module ModuleLoader {
  import opened ModuleLayout
  import opened ModuleSymtab
  import opened ModuleElf

  predicate Aligned(secs: seq<Section>) {
    forall i :: 0 <= i < |secs| ==> PowerOfTwo(AlignOf(secs[i]))
  }

  lemma PagePower()
    ensures PowerOfTwo(PAGE_SIZE)
  {
    assert PowerOfTwo(1);
    hide PowerOfTwo;
    TimesSixteen(1);
    TimesSixteen(0x10);
    TimesSixteen(0x100);
  }

  /** get_offset: the sum and the alignment are those of unsigned ints. */
  method GetOffset(size: nat, s: Section) returns (off: nat, size': nat)
    requires PowerOfTwo(AlignOf(s)) && AlignUp(size, AlignOf(s)) + s.size < UINT
    ensures off == AlignUp(size, AlignOf(s)) && size' == off + s.size
  {
    AlignFits(size, AlignOf(s));
    off := Align32(size, AlignOf(s));
    size' := (off + s.size) % UINT;
  }

  lemma AtEndAligned(secs: seq<Section>, i: nat, initSize: nat)
    requires i < |secs| && Aligned(secs)
    ensures PowerOfTwo(AlignOf(secs[i])) && Aligned(AtEnd(secs, i, initSize).0)
    ensures initSize <= AtEnd(secs, i, initSize).1
  {}

  // ----- what move_module leaves behind

  /** The bytes a section starts with. */
  function Contents(s: Section, file: seq<Byte>): (r: seq<Byte>)
    requires InFileOk(s, file)
    ensures |r| == s.size
  {
    if s.nobits then Zeros(s.size) else file[s.addr.at..s.addr.at + s.size]
  }

  /** What the check of the section headers has established. */
  predicate InFileOk(s: Section, file: seq<Byte>) {
    !s.nobits ==> s.addr.InFile? && s.addr.at + s.size <= |file|
  }

  predicate AllInFile(secs: seq<Section>, file: seq<Byte>) {
    forall i :: 0 <= i < |secs| && secs[i].alloc ==> InFileOk(secs[i], file)
  }

  function Destination(s: Section): Address {
    if IsInit(s.entsize) then InInit(Off(s.entsize)) else InCore(Off(s.entsize))
  }

  /** The section's bytes lie in `block` at its offset. */
  predicate Sits(s: Section, block: seq<Byte>, bytes: seq<Byte>) {
    && Off(s.entsize) + |bytes| <= |block|
    && block[Off(s.entsize)..Off(s.entsize) + |bytes|] == bytes
  }

  predicate Covers(s: Section, init: bool, p: nat) {
    s.alloc && IsInit(s.entsize) == init && Off(s.entsize) <= p < Off(s.entsize) + s.size
  }

  /** One block after the first `n` sections were moved. */
  predicate Moved(secs: seq<Section>, file: seq<Byte>, n: nat, init: bool, block: seq<Byte>)
    requires AllInFile(secs, file)
  {
    && (forall i :: 0 <= i < |secs| && secs[i].alloc && IsInit(secs[i].entsize) == init ==>
          Sits(secs[i], block, if i < n then Contents(secs[i], file) else Zeros(secs[i].size)))
    && (forall p :: 0 <= p < |block| && block[p] != 0 ==>
          exists i :: 0 <= i < |secs| && i < n && Covers(secs[i], init, p))
  }

  predicate BothMoved(secs: seq<Section>, file: seq<Byte>, n: nat, core: seq<Byte>, init: seq<Byte>)
    requires AllInFile(secs, file)
  {
    Moved(secs, file, n, false, core) && Moved(secs, file, n, true, init)
  }

  /** The headers after the first `n` sections were moved. */
  predicate Addressed(was: seq<Section>, secs: seq<Section>, n: nat) {
    && |secs| == |was|
    && forall i :: 0 <= i < |was| ==>
         secs[i] == if i < n && was[i].alloc then was[i].(addr := Destination(was[i])) else was[i]
  }

  lemma BlitApart(block: seq<Byte>, s: Section, bytes: seq<Byte>, t: Section, had: seq<Byte>)
    requires |bytes| == s.size && |had| == t.size && Off(s.entsize) + s.size <= |block|
    requires Apart(s, t) && Sits(t, block, had)
    ensures Sits(t, Blit(block, Off(s.entsize), bytes), had)
  {
    var r := Blit(block, Off(s.entsize), bytes);
    forall k | 0 <= k < |had| ensures r[Off(t.entsize) + k] == had[k] {
      assert block[Off(t.entsize)..Off(t.entsize) + |had|][k] == had[k];
    }
  }

  lemma BlitSelf(block: seq<Byte>, s: Section, bytes: seq<Byte>)
    requires Off(s.entsize) + |bytes| <= |block|
    ensures Sits(s, Blit(block, Off(s.entsize), bytes), bytes)
  {}

  /** Copying section `n` to its place, which holds zeros. */
  lemma MoveOne(secs: seq<Section>, file: seq<Byte>, n: nat, init: bool, block: seq<Byte>,
                coreSize: nat, initSize: nat)
    requires AllInFile(secs, file)
    requires n < |secs| && secs[n].alloc && Laid(secs, coreSize, initSize)
    requires |block| == if init then initSize else coreSize
    requires IsInit(secs[n].entsize) == init && Moved(secs, file, n, init, block)
    ensures Fits(secs[n], coreSize, initSize)
    ensures Moved(secs, file, n + 1, init, Blit(block, Off(secs[n].entsize), Contents(secs[n], file)))
  {
    var s := secs[n];
    assert Fits(s, coreSize, initSize);
    var r := Blit(block, Off(s.entsize), Contents(s, file));
    forall i | 0 <= i < |secs| && secs[i].alloc && IsInit(secs[i].entsize) == init
      ensures Sits(secs[i], r, if i < n + 1 then Contents(secs[i], file) else Zeros(secs[i].size))
    {
      hide Blit, Contents, Laid, Fits;
      if i == n {
        BlitSelf(block, s, Contents(s, file));
      } else {
        assert Apart(s, secs[i]) by { ApartPair(secs, n, i, coreSize, initSize); }
        BlitApart(block, s, Contents(s, file), secs[i],
                  if i < n then Contents(secs[i], file) else Zeros(secs[i].size));
      }
    }
    forall p | 0 <= p < |r| && r[p] != 0
      ensures exists i :: 0 <= i < |secs| && i < n + 1 && Covers(secs[i], init, p)
    {
      if Covers(s, init, p) { assert n < |secs|; } else { assert r[p] == block[p]; }
    }
  }

  lemma ApartPair(secs: seq<Section>, i: nat, j: nat, coreSize: nat, initSize: nat)
    requires Laid(secs, coreSize, initSize) && i < |secs| && j < |secs| && i != j
    requires secs[i].alloc && secs[j].alloc && IsInit(secs[i].entsize) == IsInit(secs[j].entsize)
    ensures Apart(secs[i], secs[j])
  {
    if j < i { assert Apart(secs[j], secs[i]); }
  }

  /** A section without contents is in place already. */
  lemma MoveNothing(secs: seq<Section>, file: seq<Byte>, n: nat, init: bool, block: seq<Byte>)
    requires AllInFile(secs, file)
    requires n < |secs| && (secs[n].alloc && IsInit(secs[n].entsize) == init ==> secs[n].nobits)
    requires Moved(secs, file, n, init, block)
    ensures Moved(secs, file, n + 1, init, block)
  {
    forall i | 0 <= i < |secs| && secs[i].alloc && IsInit(secs[i].entsize) == init
      ensures Sits(secs[i], block, if i < n + 1 then Contents(secs[i], file) else Zeros(secs[i].size))
    {
      assert Sits(secs[i], block, if i < n then Contents(secs[i], file) else Zeros(secs[i].size));
    }
  }

  lemma BothMovedNothing(secs: seq<Section>, file: seq<Byte>, n: nat, core: seq<Byte>, init: seq<Byte>)
    requires AllInFile(secs, file) && n < |secs| && (secs[n].alloc ==> secs[n].nobits)
    requires BothMoved(secs, file, n, core, init)
    ensures BothMoved(secs, file, n + 1, core, init)
  {
    hide Moved;
    MoveNothing(secs, file, n, false, core);
    MoveNothing(secs, file, n, true, init);
  }

  lemma BothMovedStart(secs: seq<Section>, file: seq<Byte>, core: seq<Byte>, init: seq<Byte>,
                       coreSize: nat, initSize: nat)
    requires AllInFile(secs, file) && Laid(secs, coreSize, initSize)
    requires |core| == coreSize && forall p :: 0 <= p < |core| ==> core[p] == 0
    requires |init| == initSize && forall p :: 0 <= p < |init| ==> init[p] == 0
    ensures BothMoved(secs, file, 0, core, init)
  {
    hide Moved, Laid;
    assert core == Zeros(coreSize) && init == Zeros(initSize);
    MovedStart(secs, file, false, core, coreSize, initSize);
    MovedStart(secs, file, true, init, coreSize, initSize);
  }

  lemma MovedStart(secs: seq<Section>, file: seq<Byte>, init: bool, block: seq<Byte>,
                   coreSize: nat, initSize: nat)
    requires AllInFile(secs, file)
    requires Laid(secs, coreSize, initSize)
    requires block == Zeros(if init then initSize else coreSize)
    ensures Moved(secs, file, 0, init, block)
  {
    forall i | 0 <= i < |secs| && secs[i].alloc && IsInit(secs[i].entsize) == init
      ensures Sits(secs[i], block, Zeros(secs[i].size))
    {
      assert Fits(secs[i], coreSize, initSize);
    }
  }

  /** The section's bytes of the file, or zeros if it has none, are in `block` from `at` on. */
  predicate Carried(s: Section, file: seq<Byte>, block: seq<Byte>, at: nat)
    requires InFileOk(s, file)
  {
    && at + s.size <= |block|
    && if s.nobits then forall k :: at <= k < at + s.size ==> block[k] == 0
       else block[at..at + s.size] == file[s.addr.at..s.addr.at + s.size]
  }

  lemma SitsCarried(s: Section, file: seq<Byte>, block: seq<Byte>)
    requires InFileOk(s, file) && Sits(s, block, Contents(s, file))
    ensures Carried(s, file, block, Off(s.entsize))
  {
    var at := Off(s.entsize);
    forall k | at <= k < at + s.size ensures s.nobits ==> block[k] == 0 {
      assert block[k] == block[at..at + s.size][k - at];
    }
  }

  /** After the whole move each section has its old bytes at its new address. */
  lemma MovedAll(was: seq<Section>, secs: seq<Section>, file: seq<Byte>, core: seq<Byte>, init: seq<Byte>, i: nat)
    requires AllInFile(was, file)
    requires Addressed(was, secs, |was|) && i < |was| && was[i].alloc
    requires BothMoved(was, file, |was|, core, init)
    ensures match secs[i].addr
            case InCore(at) => !IsInit(was[i].entsize) && Carried(was[i], file, core, at)
            case InInit(at) => IsInit(was[i].entsize) && Carried(was[i], file, init, at)
            case InFile(at) => false
  {
    hide Contents, Sits, Carried;
    assert secs[i].addr == Destination(was[i]);
    if IsInit(was[i].entsize) {
      assert Sits(was[i], init, Contents(was[i], file));
      SitsCarried(was[i], file, init);
    } else {
      assert Sits(was[i], core, Contents(was[i], file));
      SitsCarried(was[i], file, core);
    }
  }

  /** The layout of a whole module. */
  function Planned(secs: seq<Section>, ronx: bool, sym: nat, str: nat, syms: seq<Symbol>, tab: seq<Byte>, all: bool): Layout
    requires sym < |secs| && str < |secs|
  {
    var (core, init) := LayoutSections(secs, ronx);
    LayoutSymtab(init.secs, sym, str, core.total, init.total, syms, tab, all)
  }

  /** All sizes fit in 32 bits. */
  predicate LoadFits(secs: seq<Section>, ronx: bool, sym: nat, str: nat, syms: seq<Symbol>, tab: seq<Byte>, all: bool)
    requires sym < |secs| && str < |secs|
  {
    var (core, init) := LayoutSections(secs, ronx);
    var r := Planned(secs, ronx, sym, str, syms, tab, all);
    core.total < UINT && init.total < UINT && r.coreSize < UINT && r.initSize < UINT
  }

  lemma PlannedSection(secs: seq<Section>, ronx: bool, sym: nat, str: nat, syms: seq<Symbol>, tab: seq<Byte>, all: bool, i: nat)
    requires sym < |secs| && str < |secs| && LoadFits(secs, ronx, sym, str, syms, tab, all) && i < |secs|
    ensures var r := Planned(secs, ronx, sym, str, syms, tab, all);
            && |r.secs| == |secs|
            && r.secs[i] == secs[i].(alloc := r.secs[i].alloc, entsize := r.secs[i].entsize)
            && (r.secs[i].alloc ==> secs[i].alloc || i == sym || i == str)
  {
    LayoutTheorem(secs, ronx);
    hide LayoutSections, Laid, Kept, Reserved, AlignUp;
  }

  lemma PlannedInFile(secs: seq<Section>, ronx: bool, sym: nat, str: nat, syms: seq<Symbol>, tab: seq<Byte>, all: bool,
                      file: seq<Byte>)
    requires sym < |secs| && str < |secs| && LoadFits(secs, ronx, sym, str, syms, tab, all)
    requires forall i :: 0 <= i < |secs| && (secs[i].alloc || i == sym || i == str) ==> InFileOk(secs[i], file)
    ensures AllInFile(Planned(secs, ronx, sym, str, syms, tab, all).secs, file)
  {
    var r := Planned(secs, ronx, sym, str, syms, tab, all);
    hide Planned, LoadFits;
    if |secs| > 0 { PlannedSection(secs, ronx, sym, str, syms, tab, all, 0); }
    forall i | 0 <= i < |r.secs| && r.secs[i].alloc ensures InFileOk(r.secs[i], file) {
      PlannedSection(secs, ronx, sym, str, syms, tab, all, i);
    }
  }

  // ----- after the move

  /** Every allocated section has its contents at its place. */
  predicate AllSit(secs: seq<Section>, file: seq<Byte>, core: seq<Byte>, init: seq<Byte>)
    requires AllInFile(secs, file)
  {
    forall i :: 0 <= i < |secs| && secs[i].alloc ==>
      Sits(secs[i], if IsInit(secs[i].entsize) then init else core, Contents(secs[i], file))
  }

  /** What the end of core holds: entry `k` and its name are those of the k-th kept symbol. */
  predicate TableAt(core: seq<Byte>, symoffs: nat, stroffs: nat, tab: seq<Byte>, syms: seq<Symbol>, kept: seq<nat>)
    requires forall k :: 0 <= k < |kept| ==> kept[k] < |syms|
    requires symoffs + |kept| * SYM_SIZE <= stroffs <= |core|
  {
    forall k :: 0 <= k < |kept| && Representable(syms[kept[k]]) ==> EntryReads(core, symoffs, stroffs, tab, syms[kept[k]], k)
  }

  predicate EntryReads(core: seq<Byte>, symoffs: nat, stroffs: nat, tab: seq<Byte>, y: Symbol, k: nat) {
    var at := symoffs + k * SYM_SIZE;
    at + SYM_SIZE <= |core| && stroffs <= |core| && Reads(core[at..at + SYM_SIZE], core[stroffs..], y, tab)
  }

  lemma TableIs(was: seq<Byte>, core: seq<Byte>, symoffs: nat, stroffs: nat, tab: seq<Byte>, syms: seq<Symbol>, kept: seq<nat>)
    requires forall k :: 0 <= k < |kept| ==> kept[k] < |syms|
    requires HasRoom(|was|, symoffs, stroffs, tab, syms, kept)
    requires core == WithTable(was, symoffs, stroffs, tab, syms, kept) && |was| < UINT
    ensures |core| == |was| && symoffs + |kept| * SYM_SIZE <= stroffs <= |core|
    ensures TableAt(core, symoffs, stroffs, tab, syms, kept)
  {
    forall k | 0 <= k < |kept| && Representable(syms[kept[k]])
      ensures EntryReads(core, symoffs, stroffs, tab, syms[kept[k]], k)
    {
      hide WithTable, HasRoom, Representable, EntryReads;
      TableEntry(was, symoffs, stroffs, tab, syms, kept, k);
    }
  }

  lemma TableEntry(was: seq<Byte>, symoffs: nat, stroffs: nat, tab: seq<Byte>, syms: seq<Symbol>, kept: seq<nat>, k: nat)
    requires forall k :: 0 <= k < |kept| ==> kept[k] < |syms|
    requires HasRoom(|was|, symoffs, stroffs, tab, syms, kept) && |was| < UINT
    requires k < |kept| && Representable(syms[kept[k]])
    ensures EntryReads(WithTable(was, symoffs, stroffs, tab, syms, kept), symoffs, stroffs, tab, syms[kept[k]], k)
  {
    hide Tail, EncodeAll, Encode, Reads, Representable, Strings, Entries, Zeros, Reserved, Span;
    var es, strs := Entries(tab, syms, kept), Strings(tab, syms, kept);
    StringsReserved(tab, syms, kept);
    SpanOfInt();
    EntryRepresentable(tab, syms, kept, k);
    TailEntry(was[..symoffs], stroffs - symoffs, |was| - stroffs, es, strs, k);
    ReadsEntry(tab, syms, kept, k, Zeros(|was| - stroffs - |strs|));
  }

  /** The rooms that the plan reserves suffice for what is selected after it. */
  lemma Reserves(secs: seq<Section>, ronx: bool, sym: nat, str: nat, syms: seq<Symbol>, tab: seq<Byte>, all: bool)
    requires sym < |secs| && str < |secs|
    ensures var r := Planned(secs, ronx, sym, str, syms, tab, all);
            HasRoom(r.coreSize, r.symoffs, r.stroffs, tab, syms, Kept(syms, r.secs, all, |syms|))
  {
    var (core, init) := LayoutSections(secs, ronx);
    hide LayoutSections, LayoutSymtab, Kept, Reserved;
    SizingAgrees(init.secs, sym, str, core.total, init.total, syms, tab, all);
  }

  lemma {:induction false} KeptAddressed(syms: seq<Symbol>, was: seq<Section>, secs: seq<Section>, all: bool, n: nat)
    requires Addressed(was, secs, |was|) && n <= |syms|
    ensures Kept(syms, secs, all, n) == Kept(syms, was, all, n)
  {
    hide Destination;
    if n > 0 { KeptAddressed(syms, was, secs, all, n - 1); }
  }

  lemma HeadersKept(was: seq<Section>, secs: seq<Section>, i: nat)
    requires Addressed(was, secs, |was|) && i < |was|
    ensures secs[i] == was[i].(addr := secs[i].addr)
  {
    hide Destination;
  }

  /** What SymtabTheorem says about the plan. */
  lemma PlannedTables(secs: seq<Section>, ronx: bool, sym: nat, str: nat, syms: seq<Symbol>, tab: seq<Byte>, all: bool)
    requires sym < |secs| && str < |secs| && LoadFits(secs, ronx, sym, str, syms, tab, all)
    ensures var r := Planned(secs, ronx, sym, str, syms, tab, all);
            && |r.secs| == |secs| && r.secs[str].alloc && IsInit(r.secs[str].entsize) && r.symoffs <= r.coreSize
            && (forall i :: 0 <= i < |secs| && r.secs[i].alloc && !IsInit(r.secs[i].entsize) ==>
                  Off(r.secs[i].entsize) + r.secs[i].size <= r.symoffs)
  {
    hide LayoutSections, Laid, Kept, Reserved, AlignUp, AtEnd, LayoutSymtab;
    LayoutTheorem(secs, ronx);
    var (core, init) := LayoutSections(secs, ronx);
    SymtabTheorem(init.secs, sym, str, core.total, init.total, syms, tab, all);
  }

  /** The moved string table is the one that was measured. */
  lemma StrtabMoved(secs: seq<Section>, ronx: bool, sym: nat, str: nat, syms: seq<Symbol>, tab: seq<Byte>, all: bool,
                    file: seq<Byte>, core: seq<Byte>, init: seq<Byte>)
    requires sym < |secs| && str < |secs| && LoadFits(secs, ronx, sym, str, syms, tab, all)
    requires InFileOk(secs[str], file) && tab == Contents(secs[str], file)
    requires var r := Planned(secs, ronx, sym, str, syms, tab, all);
             AllInFile(r.secs, file) && BothMoved(r.secs, file, |secs|, core, init)
    ensures var s := Planned(secs, ronx, sym, str, syms, tab, all).secs;
            && |s| == |secs| && Off(s[str].entsize) + s[str].size <= |init|
            && init[Off(s[str].entsize)..Off(s[str].entsize) + s[str].size] == tab
  {
    PlannedTables(secs, ronx, sym, str, syms, tab, all);
    PlannedSection(secs, ronx, sym, str, syms, tab, all, str);
    hide Planned, LoadFits, Off, IsInit;
    var s := Planned(secs, ronx, sym, str, syms, tab, all).secs;
    assert Contents(s[str], file) == tab;
    hide Contents;
    assert Sits(s[str], init, Contents(s[str], file));
  }

  /** Nothing lies where the table goes. */
  lemma TailIsClear(secs: seq<Section>, ronx: bool, sym: nat, str: nat, syms: seq<Symbol>, tab: seq<Byte>, all: bool,
                    file: seq<Byte>, core: seq<Byte>, init: seq<Byte>)
    requires sym < |secs| && str < |secs| && LoadFits(secs, ronx, sym, str, syms, tab, all)
    requires var r := Planned(secs, ronx, sym, str, syms, tab, all);
             AllInFile(r.secs, file) && BothMoved(r.secs, file, |secs|, core, init)
    ensures forall p :: Planned(secs, ronx, sym, str, syms, tab, all).symoffs <= p < |core| ==> core[p] == 0
  {
    PlannedTables(secs, ronx, sym, str, syms, tab, all);
    hide Planned, LoadFits, Off, IsInit, Contents, Sits;
  }

  /** Filling the table leaves every section as it is. */
  lemma SitsBelow(secs: seq<Section>, ronx: bool, sym: nat, str: nat, syms: seq<Symbol>, tab: seq<Byte>, all: bool,
                  file: seq<Byte>, was: seq<Byte>, core: seq<Byte>, init: seq<Byte>)
    requires sym < |secs| && str < |secs| && LoadFits(secs, ronx, sym, str, syms, tab, all)
    requires var r := Planned(secs, ronx, sym, str, syms, tab, all);
             && AllInFile(r.secs, file) && BothMoved(r.secs, file, |secs|, was, init)
             && r.symoffs <= |was| == |core| && core[..r.symoffs] == was[..r.symoffs]
    ensures AllSit(Planned(secs, ronx, sym, str, syms, tab, all).secs, file, core, init)
  {
    PlannedTables(secs, ronx, sym, str, syms, tab, all);
    hide Planned, LoadFits, Off, IsInit, Contents;
    var r := Planned(secs, ronx, sym, str, syms, tab, all);
    forall i | 0 <= i < |r.secs| && r.secs[i].alloc
      ensures Sits(r.secs[i], if IsInit(r.secs[i].entsize) then init else core, Contents(r.secs[i], file))
    {
      if !IsInit(r.secs[i].entsize) {
        assert Sits(r.secs[i], was, Contents(r.secs[i], file));
        hide Sits, BothMoved, Moved, AllInFile;
        SitsSame(r.secs[i], was, core, Contents(r.secs[i], file), r.symoffs);
      }
    }
  }

  lemma SitsSame(s: Section, was: seq<Byte>, core: seq<Byte>, bytes: seq<Byte>, n: nat)
    requires Sits(s, was, bytes) && Off(s.entsize) + |bytes| <= n <= |was| == |core| && core[..n] == was[..n]
    ensures Sits(s, core, bytes)
  {
    var lo := Off(s.entsize);
    var hi := lo + |bytes|;
    forall p | lo <= p < hi ensures core[p] == was[p] {
      assert core[..n][p] == was[..n][p];
    }
    assert core[lo..hi] == was[lo..hi];
  }

  /** The result of a load by the plan `r`. */
  ghost predicate Loaded(r: Layout, secs: seq<Section>, core: seq<Byte>, init: seq<Byte>, file: seq<Byte>, tab: seq<Byte>,
                         syms: seq<Symbol>, all: bool, ndst: nat) {
    var kept := Kept(syms, r.secs, all, |syms|);
    && Addressed(r.secs, secs, |r.secs|) && AllInFile(r.secs, file) && AllSit(r.secs, file, core, init)
    && ndst == |kept| && HasRoom(|core|, r.symoffs, r.stroffs, tab, syms, kept)
    && TableAt(core, r.symoffs, r.stroffs, tab, syms, kept)
  }

  /** What a load needs of a file: alignments are powers of two, sizes fit, contents lie in the file. */
  predicate Loadable(secs: seq<Section>, ronx: bool, sym: nat, str: nat, syms: seq<Symbol>, file: seq<Byte>, tab: seq<Byte>, all: bool) {
    && sym < |secs| && str < |secs| && Aligned(secs)
    && (forall i :: 0 <= i < |secs| && (secs[i].alloc || i == sym || i == str) ==> InFileOk(secs[i], file))
    && tab == Contents(secs[str], file) && LoadFits(secs, ronx, sym, str, syms, tab, all)
  }

  lemma LoadStarts(secs: seq<Section>, ronx: bool, sym: nat, str: nat, syms: seq<Symbol>, file: seq<Byte>, tab: seq<Byte>, all: bool)
    requires Loadable(secs, ronx, sym, str, syms, file, tab, all)
    ensures sym < |secs| && str < |secs| && Aligned(secs) && InFileOk(secs[str], file) && tab == Contents(secs[str], file)
    ensures LoadFits(secs, ronx, sym, str, syms, tab, all)
    ensures forall i :: 0 <= i < |secs| && (secs[i].alloc || i == sym || i == str) ==> InFileOk(secs[i], file)
  {}

  /** The module between move_module and add_kallsyms. */
  ghost predicate MovedFrom(was: seq<Section>, ronx: bool, sym: nat, str: nat, syms: seq<Symbol>, file: seq<Byte>, tab: seq<Byte>,
                            all: bool, secs: seq<Section>, core: seq<Byte>, init: seq<Byte>, symoffs: nat, stroffs: nat) {
    && Loadable(was, ronx, sym, str, syms, file, tab, all)
    && var r := Planned(was, ronx, sym, str, syms, tab, all);
       && symoffs == r.symoffs && stroffs == r.stroffs && |core| == r.coreSize
       && Addressed(r.secs, secs, |r.secs|) && AllInFile(r.secs, file)
       && BothMoved(r.secs, file, |was|, core, init)
  }

  ghost predicate LoadedFrom(was: seq<Section>, ronx: bool, sym: nat, str: nat, syms: seq<Symbol>, file: seq<Byte>, tab: seq<Byte>,
                             all: bool, secs: seq<Section>, core: seq<Byte>, init: seq<Byte>, ndst: nat) {
    && Loadable(was, ronx, sym, str, syms, file, tab, all)
    && Loaded(Planned(was, ronx, sym, str, syms, tab, all), secs, core, init, file, tab, syms, all, ndst)
  }

  lemma ReadyToFill(was: seq<Section>, ronx: bool, sym: nat, str: nat, syms: seq<Symbol>, tab: seq<Byte>, all: bool,
                    file: seq<Byte>, secs: seq<Section>, core: seq<Byte>, init: seq<Byte>, symoffs: nat, stroffs: nat)
    requires MovedFrom(was, ronx, sym, str, syms, file, tab, all, secs, core, init, symoffs, stroffs)
    ensures TableFits(core, symoffs, stroffs, tab, syms, secs, all)
    ensures str < |secs| && Off(secs[str].entsize) + secs[str].size <= |init|
    ensures init[Off(secs[str].entsize)..Off(secs[str].entsize) + secs[str].size] == tab
  {
    LoadStarts(was, ronx, sym, str, syms, file, tab, all);
    var r := Planned(was, ronx, sym, str, syms, tab, all);
    assert |r.secs| == |was| by { PlannedTables(was, ronx, sym, str, syms, tab, all); }
    assert Addressed(r.secs, secs, |r.secs|) && |secs| == |r.secs|;
    hide *;
    Reserves(was, ronx, sym, str, syms, tab, all);
    KeptAddressed(syms, r.secs, secs, all, |syms|);
    TailIsClear(was, ronx, sym, str, syms, tab, all, file, core, init);
    StrtabMoved(was, ronx, sym, str, syms, tab, all, file, core, init);
    HeadersKept(r.secs, secs, str);
    FitsIs(core, r.symoffs, r.stroffs, tab, syms, secs, all);
  }

  lemma FitsIs(core: seq<Byte>, symoffs: nat, stroffs: nat, tab: seq<Byte>, syms: seq<Symbol>, secs: seq<Section>, all: bool)
    requires HasRoom(|core|, symoffs, stroffs, tab, syms, Kept(syms, secs, all, |syms|))
    requires forall p :: symoffs <= p < |core| ==> core[p] == 0
    ensures TableFits(core, symoffs, stroffs, tab, syms, secs, all)
  {}

  lemma LoadEnds(was: seq<Section>, ronx: bool, sym: nat, str: nat, syms: seq<Symbol>, tab: seq<Byte>, all: bool,
                 file: seq<Byte>, secs: seq<Section>, moved: seq<Byte>, core: seq<Byte>, init: seq<Byte>,
                 symoffs: nat, stroffs: nat, ndst: nat)
    requires MovedFrom(was, ronx, sym, str, syms, file, tab, all, secs, moved, init, symoffs, stroffs)
    requires TableFilled(moved, core, symoffs, stroffs, tab, syms, secs, all, ndst)
    ensures LoadedFrom(was, ronx, sym, str, syms, file, tab, all, secs, core, init, ndst)
  {
    LoadStarts(was, ronx, sym, str, syms, file, tab, all);
    var r := Planned(was, ronx, sym, str, syms, tab, all);
    assert |r.secs| == |was| by { PlannedTables(was, ronx, sym, str, syms, tab, all); }
    assert r.coreSize < UINT;
    hide Planned, LoadFits, Kept, WithTable, HasRoom, TableAt, AllSit, Addressed, AllInFile, BothMoved, InFileOk, Contents,
         Aligned, Loadable;
    KeptAddressed(syms, r.secs, secs, all, |syms|);
    TableIs(moved, core, r.symoffs, r.stroffs, tab, syms, Kept(syms, r.secs, all, |syms|));
    SitsBelow(was, ronx, sym, str, syms, tab, all, file, moved, core, init);
  }

  class Loader {
    const ronx: bool                 // CONFIG_DEBUG_SET_MODULE_RONX
    const all: bool                  // CONFIG_KALLSYMS_ALL
    const secs: array<Section>
    var coreSize: nat
    var coreText: nat
    var coreRo: nat
    var initSize: nat
    var initText: nat
    var initRo: nat
    var symoffs: nat
    var stroffs: nat
    var core: array<Byte>
    var init: array<Byte>

    constructor (headers: seq<Section>, ronx: bool, all: bool)
      ensures this.ronx == ronx && this.all == all && secs[..] == headers && fresh(secs)
      ensures coreSize == 0 && initSize == 0
    {
      this.ronx, this.all := ronx, all;
      secs := new Section[|headers|](i requires 0 <= i < |headers| => headers[i]);
      coreSize, coreText, coreRo, initSize, initText, initRo, symoffs, stroffs := 0, 0, 0, 0, 0, 0, 0, 0;
      core, init := new Byte[0], new Byte[0];
    }

    /** One pass of the loop over the masks. */
    method PlacePass(m: nat, toInit: bool, size: nat) returns (size': nat)
      requires Aligned(secs[..]) && PlaceFrom(secs[..], m, toInit, 0, size).1 < UINT
      modifies secs
      ensures (secs[..], size') == PlaceFrom(old(secs[..]), m, toInit, 0, size)
      ensures Aligned(secs[..])
    {
      size' := size;
      for i := 0 to secs.Length
        invariant Aligned(secs[..])
        invariant PlaceFrom(secs[..], m, toInit, i, size') == PlaceFrom(old(secs[..]), m, toInit, 0, size)
      {
        if Wants(secs[i], m, toInit) {
          var off;
          off, size' := GetOffset(size', secs[i]);
          ghost var was := secs[..];
          secs[i] := secs[i].(entsize := Mark(off, toInit));
          assert secs[..] == was[i := was[i].(entsize := Mark(off, toInit))];
        }
      }
    }

    /** debug_align */
    method RoundUp(size: nat) returns (size': nat)
      requires DebugAlign(size, ronx) < UINT
      ensures size' == DebugAlign(size, ronx)
    {
      PagePower();
      if ronx {
        AlignFits(size, PAGE_SIZE);
        size' := Align32(size, PAGE_SIZE);
      } else {
        size' := size;
      }
    }

    /** The loop over the masks for one block. */
    method PlaceBlock(toInit: bool) returns (text: nat, ro: nat, total: nat)
      requires Aligned(secs[..]) && LayoutBlock(secs[..], toInit, ronx).total < UINT
      modifies secs
      ensures var r := LayoutBlock(old(secs[..]), toInit, ronx);
              secs[..] == r.secs && text == r.text && ro == r.ro && total == r.total
      ensures Aligned(secs[..])
    {
      hide Aligned, PlaceFrom, DebugAlign;
      var size := PlacePass(0, toInit, 0);
      text := RoundUp(size);
      size := PlacePass(1, toInit, text);
      ro := RoundUp(size);
      size := PlacePass(2, toInit, ro);
      size := PlacePass(3, toInit, size);
      total := RoundUp(size);
    }

    /** layout_sections; with LayoutTheorem, what the layout guarantees. */
    method PlaceSections()
      requires Aligned(secs[..])
      requires LayoutSections(secs[..], ronx).0.total < UINT && LayoutSections(secs[..], ronx).1.total < UINT
      modifies this`coreSize, this`coreText, this`coreRo, this`initSize, this`initText, this`initRo, secs
      ensures var (c, i) := LayoutSections(old(secs[..]), ronx);
              && secs[..] == i.secs
              && coreSize == c.total && coreText == c.text && coreRo == c.ro
              && initSize == i.total && initText == i.text && initRo == i.ro
              && Laid(secs[..], coreSize, initSize)
      ensures Aligned(secs[..])
    {
      ghost var was := secs[..];
      for i := 0 to secs.Length
        invariant forall j :: 0 <= j < i ==> secs[j] == was[j].(entsize := UNSET)
        invariant forall j :: i <= j < secs.Length ==> secs[j] == was[j]
      {
        secs[i] := secs[i].(entsize := UNSET);
      }
      assert secs[..] == Unset(was);
      hide LayoutBlock;
      coreText, coreRo, coreSize := PlaceBlock(false);
      initText, initRo, initSize := PlaceBlock(true);
      LayoutTheorem(was, ronx);
    }

    /** Layout, symbol-table layout and move, one after the other. */
    method PlaceAndMove(sym: nat, str: nat, syms: seq<Symbol>, tab: seq<Byte>, file: seq<Byte>, coreOk: bool, initOk: bool)
      returns (ok: bool)
      requires Loadable(secs[..], ronx, sym, str, syms, file, tab, all)
      modifies this, secs
      ensures ok <==> coreOk && (initSize == 0 || initOk)
      ensures ok ==> fresh(core) && fresh(init) && core != init
      ensures ok ==> MovedFrom(old(secs[..]), ronx, sym, str, syms, file, tab, all, secs[..], core[..], init[..], symoffs, stroffs)
    {
      ghost var was := secs[..];
      LoadStarts(was, ronx, sym, str, syms, file, tab, all);
      hide Aligned, LayoutSections, LayoutSymtab, Laid, AllInFile, InFileOk, Addressed, BothMoved, Loadable, Contents;
      LayoutTheorem(was, ronx);
      PlaceSections();
      SymtabTheorem(secs[..], sym, str, coreSize, initSize, syms, tab, all);
      PlannedInFile(was, ronx, sym, str, syms, tab, all, file);
      PlaceSymtab(sym, str, syms, tab);
      ok := MoveModule(file, coreOk, initOk);
    }

    /**
     A whole load: whatever sections a file has, if the sizes fit, every allocated section, the two
     symbol tables included, is at its place with its contents, and behind the sections of core lie
     the kept symbols, read with their names from the moved string table.  `tab` is the string table
     in the file, which layout_symtab measures.
     */
    method Load(sym: nat, str: nat, syms: seq<Symbol>, tab: seq<Byte>, file: seq<Byte>, coreOk: bool, initOk: bool)
      returns (ok: bool, ndst: nat)
      requires Loadable(secs[..], ronx, sym, str, syms, file, tab, all)
      modifies this, secs
      ensures ok <==> coreOk && (initSize == 0 || initOk)
      ensures ok ==> LoadedFrom(old(secs[..]), ronx, sym, str, syms, file, tab, all, secs[..], core[..], init[..], ndst)
    {
      hide *;
      ghost var was := secs[..];
      ok := PlaceAndMove(sym, str, syms, tab, file, coreOk, initOk);
      ndst := 0;
      if ok {
        ndst := FillMoved(sym, str, syms, file, was, tab);
      }
    }

    /** add_kallsyms on a moved module, with the moved string table. */
    method FillMoved(sym: nat, str: nat, syms: seq<Symbol>, file: seq<Byte>, ghost was: seq<Section>, ghost tab: seq<Byte>)
      returns (ndst: nat)
      requires MovedFrom(was, ronx, sym, str, syms, file, tab, all, secs[..], core[..], init[..], symoffs, stroffs)
      requires core != init && core != secs as object
      modifies core
      ensures LoadedFrom(was, ronx, sym, str, syms, file, tab, all, secs[..], core[..], init[..], ndst)
    {
      hide *;
      ReadyToFill(was, ronx, sym, str, syms, tab, all, file, secs[..], core[..], init[..], symoffs, stroffs);
      ghost var moved := core[..];
      var at := Off(secs[str].entsize);
      ndst := AddKallsyms(syms, init[at..at + secs[str].size]);
      LoadEnds(was, ronx, sym, str, syms, tab, all, file, secs[..], moved, core[..], init[..], symoffs, stroffs, ndst);
    }

    /** Puts a section at the end of init. */
    method PlaceAtEnd(i: nat)
      requires i < secs.Length && PowerOfTwo(AlignOf(secs[i])) && AtEnd(secs[..], i, initSize).1 < UINT
      modifies this`initSize, secs
      ensures (secs[..], initSize) == AtEnd(old(secs[..]), i, old(initSize))
    {
      ghost var was := secs[..];
      var off;
      off, initSize := GetOffset(initSize, secs[i]);
      secs[i] := secs[i].(alloc := true, entsize := Mark(off, true));
      assert secs[..] == was[i := was[i].(alloc := true, entsize := Mark(off, true))];
    }

    /** layout_symtab; with SymtabTheorem, the layout stays one. */
    method PlaceSymtab(sym: nat, str: nat, syms: seq<Symbol>, tab: seq<Byte>)
      requires sym < secs.Length && str < secs.Length && Aligned(secs[..])
      requires var r := LayoutSymtab(secs[..], sym, str, coreSize, initSize, syms, tab, all);
               r.coreSize < UINT && r.initSize < UINT
      modifies this`coreSize, this`initSize, this`symoffs, this`stroffs, secs
      ensures var r := LayoutSymtab(old(secs[..]), sym, str, old(coreSize), old(initSize), syms, tab, all);
              && secs[..] == r.secs && coreSize == r.coreSize && initSize == r.initSize
              && symoffs == r.symoffs && stroffs == r.stroffs
    {
      hide PowerOfTwo, AtEnd, Kept, Reserved, Name, Floor;
      ghost var was := secs[..];
      ghost var kept := Kept(syms, AtEnd(was, sym, initSize).0, all, |syms|);
      var align := AlignOf(secs[sym]);
      AtEndAligned(was, sym, initSize);
      AtEndAligned(AtEnd(was, sym, initSize).0, str, AtEnd(was, sym, initSize).1);
      PlaceAtEnd(sym);
      var ndst, size := Measure(syms, tab, secs[..], all);
      PlaceTail(align, ndst, size);
      PlaceAtEnd(str);
    }

    /** Room for the core symbols and their strings at the end of core. */
    method PlaceTail(align: nat, ndst: nat, size: nat)
      requires align > 0 && PowerOfTwo(align) && AlignUp(coreSize, align) + ndst * SYM_SIZE + size < UINT
      modifies this`coreSize, this`symoffs, this`stroffs
      ensures symoffs == AlignUp(old(coreSize), align)
      ensures stroffs == symoffs + ndst * SYM_SIZE && coreSize == stroffs + size
    {
      AlignFits(coreSize, align);
      symoffs := Align32(coreSize, align);
      stroffs := (symoffs + ndst * SYM_SIZE) % UINT;
      coreSize := (stroffs + size) % UINT;
    }

    /** move_module; the flags say which allocations succeed. */
    method MoveModule(file: seq<Byte>, coreOk: bool, initOk: bool) returns (ok: bool)
      requires Laid(secs[..], coreSize, initSize)
      requires AllInFile(secs[..], file)
      modifies this`core, this`init, secs
      ensures ok <==> coreOk && (initSize == 0 || initOk)
      ensures !ok ==> secs[..] == old(secs[..])
      ensures ok ==> fresh(core) && fresh(init) && core != init
      ensures ok ==> Addressed(old(secs[..]), secs[..], secs.Length)
      ensures ok ==> core.Length == coreSize && init.Length == initSize
      ensures ok ==> BothMoved(old(secs[..]), file, secs.Length, core[..], init[..])
    {
      hide *;
      if !coreOk { return false; }
      core := new Byte[coreSize](_ => 0);
      if initSize != 0 && !initOk { return false; }
      init := new Byte[initSize](_ => 0);
      BothMovedStart(secs[..], file, core[..], init[..], coreSize, initSize);
      MoveSections(file);
      ok := true;
    }

    /** The loop of move_module. */
    method MoveSections(file: seq<Byte>)
      requires Laid(secs[..], coreSize, initSize) && AllInFile(secs[..], file)
      requires core != init && core.Length == coreSize && init.Length == initSize
      requires BothMoved(secs[..], file, 0, core[..], init[..])
      modifies core, init, secs
      ensures Addressed(old(secs[..]), secs[..], secs.Length)
      ensures BothMoved(old(secs[..]), file, secs.Length, core[..], init[..])
    {
      hide Moved, Laid, BothMoved, AllInFile, Destination;
      ghost var was := secs[..];
      for i := 0 to secs.Length
        invariant Addressed(was, secs[..], i) && BothMoved(was, file, i, core[..], init[..])
      {
        var s := secs[i];
        if s.alloc {
          CopySection(s, file, was, i);
          secs[i] := s.(addr := Destination(s));
        } else {
          BothMovedNothing(was, file, i, core[..], init[..]);
        }
      }
    }

    method CopySection(s: Section, file: seq<Byte>, ghost was: seq<Section>, ghost i: nat)
      requires AllInFile(was, file)
      requires i < |was| && s == was[i] && s.alloc && Laid(was, coreSize, initSize)
      requires core != init && core.Length == coreSize && init.Length == initSize
      requires BothMoved(was, file, i, core[..], init[..])
      modifies core, init
      ensures BothMoved(was, file, i + 1, core[..], init[..])
    {
      hide Moved, Laid, IsInit, Off, Blit;
      if s.nobits {
        BothMovedNothing(was, file, i, core[..], init[..]);
      } else {
        var data := file[s.addr.at..s.addr.at + s.size];
        if IsInit(s.entsize) {
          MoveOne(was, file, i, true, init[..], coreSize, initSize);
          MoveNothing(was, file, i, false, core[..]);
          CopyIn(init, Off(s.entsize), data);
        } else {
          MoveOne(was, file, i, false, core[..], coreSize, initSize);
          MoveNothing(was, file, i, true, init[..]);
          CopyIn(core, Off(s.entsize), data);
        }
      }
    }

    /** add_kallsyms: fills the entries and strings reserved at the end of core. */
    method AddKallsyms(syms: seq<Symbol>, tab: seq<Byte>) returns (ndst: nat)
      requires TableFits(core[..], symoffs, stroffs, tab, syms, secs[..], all)
      requires core != secs as object
      modifies core
      ensures TableFilled(old(core[..]), core[..], symoffs, stroffs, tab, syms, secs[..], all, ndst)
      ensures core.Length < UINT ==> TableRead(core[..], symoffs, stroffs, tab, syms, secs[..], all)
    {
      hide *;
      ndst := FillTable(core, secs[..], all, symoffs, stroffs, syms, tab);
    }
  }

  /** There is room for the kept symbols, and nothing but zeros in it. */
  predicate TableFits(core: seq<Byte>, symoffs: nat, stroffs: nat, tab: seq<Byte>, syms: seq<Symbol>, secs: seq<Section>, all: bool) {
    && HasRoom(|core|, symoffs, stroffs, tab, syms, Kept(syms, secs, all, |syms|))
    && forall p :: symoffs <= p < |core| ==> core[p] == 0
  }

  /** The kept symbols fill it. */
  predicate TableFilled(was: seq<Byte>, core: seq<Byte>, symoffs: nat, stroffs: nat, tab: seq<Byte>, syms: seq<Symbol>,
                        secs: seq<Section>, all: bool, ndst: nat) {
    var kept := Kept(syms, secs, all, |syms|);
    && ndst == |kept| && HasRoom(|was|, symoffs, stroffs, tab, syms, kept)
    && core == WithTable(was, symoffs, stroffs, tab, syms, kept)
  }

  /** Every kept symbol and its name can be read at the end of core. */
  ghost predicate TableRead(core: seq<Byte>, symoffs: nat, stroffs: nat, tab: seq<Byte>, syms: seq<Symbol>,
                            secs: seq<Section>, all: bool) {
    var kept := Kept(syms, secs, all, |syms|);
    symoffs + |kept| * SYM_SIZE <= stroffs <= |core| && TableAt(core, symoffs, stroffs, tab, syms, kept)
  }

  /** After the first `i` symbols: `ndst` entries and `pos` bytes of strings. */
  ghost predicate Filling(was: seq<Byte>, core: seq<Byte>, symoffs: nat, stroffs: nat, tab: seq<Byte>, syms: seq<Symbol>,
                          secs: seq<Section>, all: bool, i: nat, ndst: nat, pos: nat) {
    && i <= |syms| && HasRoom(|was|, symoffs, stroffs, tab, syms, Kept(syms, secs, all, |syms|))
    && var kept := Kept(syms, secs, all, i);
       && ndst == |kept| && pos == Reserved(tab, syms, kept) && HasRoom(|was|, symoffs, stroffs, tab, syms, kept)
       && core == WithTable(was, symoffs, stroffs, tab, syms, kept)
  }

  lemma FillStarts(core: seq<Byte>, symoffs: nat, stroffs: nat, tab: seq<Byte>, syms: seq<Symbol>, secs: seq<Section>, all: bool)
    requires TableFits(core, symoffs, stroffs, tab, syms, secs, all)
    ensures Filling(core, core, symoffs, stroffs, tab, syms, secs, all, 0, 0, 0)
  {
    hide Kept, Reserved, WithTable;
    TableEmpty(core, symoffs, stroffs, tab, syms, secs, all);
  }

  lemma FillSkips(was: seq<Byte>, core: seq<Byte>, symoffs: nat, stroffs: nat, tab: seq<Byte>, syms: seq<Symbol>,
                  secs: seq<Section>, all: bool, i: nat, ndst: nat, pos: nat)
    requires Filling(was, core, symoffs, stroffs, tab, syms, secs, all, i, ndst, pos)
    requires 0 < i < |syms| && !IsCore(syms[i], secs, all)
    ensures Filling(was, core, symoffs, stroffs, tab, syms, secs, all, i + 1, ndst, pos)
  {
    KeptLast(syms, secs, tab, all, i + 1);
    hide Kept, Reserved, WithTable, HasRoom, IsCore;
  }

  lemma FillEnds(was: seq<Byte>, core: seq<Byte>, symoffs: nat, stroffs: nat, tab: seq<Byte>, syms: seq<Symbol>,
                 secs: seq<Section>, all: bool, ndst: nat, pos: nat)
    requires Filling(was, core, symoffs, stroffs, tab, syms, secs, all, |syms|, ndst, pos)
    ensures TableFilled(was, core, symoffs, stroffs, tab, syms, secs, all, ndst)
    ensures |core| < UINT ==> TableRead(core, symoffs, stroffs, tab, syms, secs, all)
  {
    hide Kept, Reserved, WithTable, HasRoom, TableAt;
    if |core| < UINT { TableIs(was, core, symoffs, stroffs, tab, syms, Kept(syms, secs, all, |syms|)); }
  }

  /** One symbol more: its entry, then its string. */
  lemma FillOne(was: seq<Byte>, core: seq<Byte>, symoffs: nat, stroffs: nat, tab: seq<Byte>, syms: seq<Symbol>,
                secs: seq<Section>, all: bool, i: nat, ndst: nat, pos: nat)
    requires Filling(was, core, symoffs, stroffs, tab, syms, secs, all, i, ndst, pos)
    requires i < |syms| && (i == 0 || IsCore(syms[i], secs, all))
    ensures var e := Encode(syms[i].(name := pos));
            var name := Name(tab, syms[i].name);
            && symoffs + ndst * SYM_SIZE + |e| <= |core| && stroffs + pos + |Cut(name) + [0]| <= |core|
            && Filling(was, Blit(Blit(core, symoffs + ndst * SYM_SIZE, e), stroffs + pos, Cut(name) + [0]),
                       symoffs, stroffs, tab, syms, secs, all, i + 1, ndst + 1, pos + |name| + 1)
  {
    hide Kept, Reserved, WithTable, IsCore, Name, Cut, Encode, Blit;
    var kept := Kept(syms, secs, all, i);
    KeptLast(syms, secs, tab, all, i + 1);
    RoomForMore(|was|, symoffs, stroffs, tab, syms, secs, all, i);
    hide HasRoom;
    TableOneMore(was, symoffs, stroffs, tab, syms, kept, i);
  }

  /** The copying loop of add_kallsyms. */
  method FillTable(core: array<Byte>, secs: seq<Section>, all: bool, symoffs: nat, stroffs: nat, syms: seq<Symbol>, tab: seq<Byte>)
    returns (ndst: nat)
    requires TableFits(core[..], symoffs, stroffs, tab, syms, secs, all)
    modifies core
    ensures TableFilled(old(core[..]), core[..], symoffs, stroffs, tab, syms, secs, all, ndst)
    ensures core.Length < UINT ==> TableRead(core[..], symoffs, stroffs, tab, syms, secs, all)
  {
    hide *;
    ghost var was := core[..];
    var pos: nat := 0;
    ndst := 0;
    FillStarts(was, symoffs, stroffs, tab, syms, secs, all);
    for i := 0 to |syms|
      invariant Filling(was, core[..], symoffs, stroffs, tab, syms, secs, all, i, ndst, pos)
    {
      if i == 0 || IsCore(syms[i], secs, all) {
        FillOne(was, core[..], symoffs, stroffs, tab, syms, secs, all, i, ndst, pos);
        CopyIn(core, symoffs + ndst * SYM_SIZE, Encode(syms[i].(name := pos)));
        var n := Strlcpy(core, stroffs + pos, tab, syms[i].name);
        pos, ndst := pos + n + 1, ndst + 1;
      } else {
        FillSkips(was, core[..], symoffs, stroffs, tab, syms, secs, all, i, ndst, pos);
      }
    }
    FillEnds(was, core[..], symoffs, stroffs, tab, syms, secs, all, ndst, pos);
  }

  // ----- the table at the end of core

  /** The rooms reserved by layout_symtab hold the entries and strings of the kept symbols. */
  predicate HasRoom(len: nat, symoffs: nat, stroffs: nat, tab: seq<Byte>, syms: seq<Symbol>, kept: seq<nat>)
    requires forall k :: 0 <= k < |kept| ==> kept[k] < |syms|
  {
    symoffs + |kept| * SYM_SIZE <= stroffs && stroffs + Reserved(tab, syms, kept) <= len
  }

  /** Core with the table filled in: nothing before `symoffs` changes. */
  function WithTable(core: seq<Byte>, symoffs: nat, stroffs: nat, tab: seq<Byte>, syms: seq<Symbol>, kept: seq<nat>): (r: seq<Byte>)
    requires forall k :: 0 <= k < |kept| ==> kept[k] < |syms|
    requires HasRoom(|core|, symoffs, stroffs, tab, syms, kept)
    ensures |r| == |core| && symoffs <= |core| && r[..symoffs] == core[..symoffs]
  {
    StringsReserved(tab, syms, kept);
    Tail(core[..symoffs], stroffs - symoffs, |core| - stroffs, EncodeAll(Entries(tab, syms, kept)), Strings(tab, syms, kept))
  }

  lemma TableEmpty(core: seq<Byte>, symoffs: nat, stroffs: nat, tab: seq<Byte>, syms: seq<Symbol>, r: seq<Section>, all: bool)
    requires symoffs <= stroffs <= |core| && forall p :: symoffs <= p < |core| ==> core[p] == 0
    ensures Kept(syms, r, all, 0) == [] && Reserved(tab, syms, []) == 0
    ensures HasRoom(|core|, symoffs, stroffs, tab, syms, []) && WithTable(core, symoffs, stroffs, tab, syms, []) == core
  {
    var sym, str := Zeros(stroffs - symoffs), Zeros(|core| - stroffs);
    assert core[symoffs..stroffs] == sym && core[stroffs..] == str;
    assert [] + sym == sym && [] + str == str;
    assert WithTable(core, symoffs, stroffs, tab, syms, []) == core[..symoffs] + sym + str;
  }

  lemma RoomForMore(len: nat, symoffs: nat, stroffs: nat, tab: seq<Byte>, syms: seq<Symbol>, r: seq<Section>, all: bool, i: nat)
    requires i < |syms| && HasRoom(len, symoffs, stroffs, tab, syms, Kept(syms, r, all, |syms|))
    ensures HasRoom(len, symoffs, stroffs, tab, syms, Kept(syms, r, all, i + 1))
  {
    hide Kept, Reserved;
    KeptGrows(syms, r, tab, all, i + 1, |syms|);
  }

  lemma TableOneMore(core: seq<Byte>, symoffs: nat, stroffs: nat, tab: seq<Byte>, syms: seq<Symbol>, kept: seq<nat>, i: nat)
    requires i < |syms| && forall k :: 0 <= k < |kept| ==> kept[k] < |syms|
    requires HasRoom(|core|, symoffs, stroffs, tab, syms, kept) && HasRoom(|core|, symoffs, stroffs, tab, syms, kept + [i])
    ensures var t := WithTable(core, symoffs, stroffs, tab, syms, kept);
            var e := Encode(syms[i].(name := Reserved(tab, syms, kept)));
            var name := Cut(Name(tab, syms[i].name)) + [0];
            && symoffs + |kept| * SYM_SIZE + |e| <= |core| && stroffs + Reserved(tab, syms, kept) + |name| <= |core|
            && Blit(Blit(t, symoffs + |kept| * SYM_SIZE, e), stroffs + Reserved(tab, syms, kept), name)
               == WithTable(core, symoffs, stroffs, tab, syms, kept + [i])
  {
    hide Name, Strings, Entries, Blit, Reserved, Cut, Slot, Zeros, Tail, Encode, EncodeAll;
    var head, symRoom, strRoom := core[..symoffs], stroffs - symoffs, |core| - stroffs;
    var es, str := Entries(tab, syms, kept), Strings(tab, syms, kept);
    var y := syms[i].(name := Reserved(tab, syms, kept));
    FilledLast(tab, syms, kept, i);
    StringsReserved(tab, syms, kept);
    EncodeOneMore(es, y);
    PutEntry(head, symRoom, strRoom, EncodeAll(es), str, Encode(y));
    PutName(head, symRoom, strRoom, EncodeAll(es) + Encode(y), str, Name(tab, syms[i].name));
  }

  lemma KeptNone(syms: seq<Symbol>, tab: seq<Byte>, r: seq<Section>, all: bool)
    ensures var kept := Kept(syms, r, all, 0);
            kept == [] && Reserved(tab, syms, kept) == 0 && Strings(tab, syms, kept) == []
  {}

  /** The counting loop of layout_symtab. */
  method Measure(syms: seq<Symbol>, tab: seq<Byte>, secs: seq<Section>, all: bool) returns (ndst: nat, size: nat)
    ensures ndst == |Kept(syms, secs, all, |syms|)|
    ensures size == Reserved(tab, syms, Kept(syms, secs, all, |syms|))
  {
    hide Name, Kept, Reserved, IsCore;
    ndst, size := 0, 0;
    KeptNone(syms, tab, secs, all);
    for i := 0 to |syms|
      invariant ndst == |Kept(syms, secs, all, i)| && size == Reserved(tab, syms, Kept(syms, secs, all, i))
    {
      KeptLast(syms, secs, tab, all, i + 1);
      if i == 0 || IsCore(syms[i], secs, all) {
        var n := StrLen(tab, syms[i].name);
        size := size + n + 1;
        ndst := ndst + 1;
      }
    }
  }

  /** At `off` lies what is kept of a name, and a NUL. */
  ghost predicate StringAt(block: seq<Byte>, off: nat, name: seq<Byte>) {
    exists got :: KeptAs(name, got) && off + |got| < |block| && block[off..off + |got|] == got && block[off + |got|] == 0
  }

  lemma PutBytes(block: seq<Byte>, off: nat, name: seq<Byte>)
    requires off + |Cut(name)| + 1 <= |block|
    ensures StringAt(Blit(block, off, Cut(name) + [0]), off, name)
  {
    var s := Cut(name);
    assert KeptAs(name, s);
    hide Cut, KeptAs;
    var r := Blit(block, off, s + [0]);
    assert r[off..off + |s|] == s && r[off + |s|] == 0;
  }

  /** strlcpy, with the size KSYM_NAME_LEN */
  method Strlcpy(dest: array<Byte>, off: nat, tab: seq<Byte>, at: nat) returns (n: nat)
    requires off + |Cut(Name(tab, at))| + 1 <= dest.Length
    modifies dest
    ensures n == |Name(tab, at)|
    ensures dest[..] == Blit(old(dest[..]), off, Cut(Name(tab, at)) + [0])
    ensures StringAt(dest[..], off, Name(tab, at))
  {
    hide Blit, KeptAs, StringAt;
    PutBytes(dest[..], off, Name(tab, at));
    n := StrLen(tab, at);
    var len := if n >= KSYM_NAME_LEN then KSYM_NAME_LEN - 1 else n;
    CopyIn(dest, off, (if len == 0 then [] else tab[at..at + len]) + [0]);
    assert (if len == 0 then [] else tab[at..at + len]) == Cut(Name(tab, at));
  }

  /** strlen */
  method StrLen(tab: seq<Byte>, at: nat) returns (n: nat)
    ensures n == |Name(tab, at)|
  {
    n := 0;
    while at + n < |tab| && tab[at + n] != 0
      invariant at <= |tab| ==> at + n <= |tab|
      invariant |Name(tab, at)| == n + |Name(tab, at + n)|
    {
      n := n + 1;
    }
  }

  /** memcpy */
  method CopyIn(dest: array<Byte>, off: nat, bytes: seq<Byte>)
    requires off + |bytes| <= dest.Length
    modifies dest
    ensures dest[..] == Blit(old(dest[..]), off, bytes)
  {
    for k := 0 to |bytes|
      invariant forall m :: 0 <= m < dest.Length ==>
        dest[m] == if off <= m < off + k then bytes[m - off] else old(dest[m])
    {
      dest[off + k] := bytes[k];
    }
  }
}
