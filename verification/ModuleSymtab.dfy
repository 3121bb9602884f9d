/**
 The part of the symbol table that a module keeps: layout_symtab measures it and reserves room at
 the end of core, add_kallsyms fills that room after the sections have moved.
 */
module ModuleSymtab {
  import opened ModuleLayout

  const SYM_SIZE: nat := 24         // sizeof(Elf64_Sym)
  const KSYM_NAME_LEN: nat := 128
  const SHN_UNDEF: nat := 0

  /** An Elf64_Sym; `name` is the offset of the name in the string table. */
  datatype Symbol = Symbol(name: nat, info: nat, other: nat, shndx: nat, value: nat, size: nat)

  /** is_core_symbol; `all` is CONFIG_KALLSYMS_ALL. */
  predicate IsCore(y: Symbol, secs: seq<Section>, all: bool) {
    && y.shndx != SHN_UNDEF && y.shndx < |secs| && y.name != 0
    && CoreSection(secs[y.shndx], all)
  }

  predicate CoreSection(s: Section, all: bool) {
    s.alloc && (all || s.exec) && !IsInit(s.entsize)
  }

  /** The indices among the first `n` symbols that are kept. */
  function Kept(syms: seq<Symbol>, secs: seq<Section>, all: bool, n: nat): (r: seq<nat>)
    requires n <= |syms|
    ensures |r| <= n && (forall k :: 0 <= k < |r| ==> r[k] < n)
  {
    if n == 0 then []
    else if n == 1 || IsCore(syms[n - 1], secs, all) then Kept(syms, secs, all, n - 1) + [n - 1]
    else Kept(syms, secs, all, n - 1)
  }

  /** The kept symbols, in order: the first, and those that have a name and are defined in a section of
      the file that is allocated, executable (or any, with CONFIG_KALLSYMS_ALL) and laid out in core. */
  lemma {:induction false} KeptExact(syms: seq<Symbol>, secs: seq<Section>, all: bool, n: nat, i: nat)
    requires i < n <= |syms|
    ensures i in Kept(syms, secs, all, n) <==>
            || i == 0
            || (var y := syms[i];
                && y.name != 0 && 0 < y.shndx < |secs| && secs[y.shndx].alloc
                && (secs[y.shndx].exec || all) && secs[y.shndx].entsize < INIT_OFFSET_MASK)
    ensures forall j, k :: 0 <= j < k < |Kept(syms, secs, all, n)| ==> Kept(syms, secs, all, n)[j] < Kept(syms, secs, all, n)[k]
  {
    if i < n - 1 {
      KeptExact(syms, secs, all, n - 1, i);
    } else if n > 1 {
      KeptExact(syms, secs, all, n - 1, n - 2);
    }
  }

  // ----- names in a string table

  newtype Byte = b: int | 0 <= b < 256

  /** The bytes from `at` up to the next NUL. */
  function Name(tab: seq<Byte>, at: nat): (r: seq<Byte>)
    ensures at <= |tab| ==> at + |r| <= |tab| && r == tab[at..at + |r|]
    ensures 0 !in r
    ensures at + |r| < |tab| ==> tab[at + |r|] == 0
    decreases |tab| - at
  {
    if at >= |tab| || tab[at] == 0 then []
    else
      assert at < |tab|;
      [tab[at]] + Name(tab, at + 1)
  }

  /** A name that fits 128 bytes with its NUL is kept whole, a longer one up to its 127th byte. */
  predicate KeptAs(name: seq<Byte>, got: seq<Byte>) {
    if |name| < 128 then got == name else got == name[..127]
  }

  /** What strlcpy leaves of a name. */
  function Cut(name: seq<Byte>): (r: seq<Byte>)
    ensures r <= name && KeptAs(name, r)
  {
    if |name| < KSYM_NAME_LEN then name else name[..KSYM_NAME_LEN - 1]
  }

  function Zeros(n: nat): (r: seq<Byte>)
    ensures |r| == n && (forall k :: 0 <= k < n ==> r[k] == 0)
  {
    seq(n, _ => 0)
  }

  /** The bytes that one name takes: its full length plus one, of which strlcpy fills some. */
  function Slot(name: seq<Byte>): (r: seq<Byte>)
    ensures |r| == |name| + 1
  {
    Cut(name) + Zeros(|name| + 1 - |Cut(name)|)
  }

  /** The strings of the kept symbols. */
  function Strings(tab: seq<Byte>, syms: seq<Symbol>, kept: seq<nat>): seq<Byte>
    requires forall k :: 0 <= k < |kept| ==> kept[k] < |syms|
  {
    if kept == [] then []
    else Strings(tab, syms, kept[..|kept| - 1]) + Slot(Name(tab, syms[kept[|kept| - 1]].name))
  }

  /** strtab_size */
  function Reserved(tab: seq<Byte>, syms: seq<Symbol>, kept: seq<nat>): nat
    requires forall k :: 0 <= k < |kept| ==> kept[k] < |syms|
  {
    if kept == [] then 0
    else Reserved(tab, syms, kept[..|kept| - 1]) + |Name(tab, syms[kept[|kept| - 1]].name)| + 1
  }

  /** The filled table: each entry names the offset at which its string was put. */
  function Entries(tab: seq<Byte>, syms: seq<Symbol>, kept: seq<nat>): (r: seq<Symbol>)
    requires forall k :: 0 <= k < |kept| ==> kept[k] < |syms|
    ensures |r| == |kept|
  {
    if kept == [] then []
    else
      var front := kept[..|kept| - 1];
      Entries(tab, syms, front) + [syms[kept[|kept| - 1]].(name := |Strings(tab, syms, front)|)]
  }

  // ----- layout_symtab

  datatype Layout = Layout(secs: seq<Section>, coreSize: nat, initSize: nat, symoffs: nat, stroffs: nat)

  /** Puts a section at the end of init: sets SHF_ALLOC, returns the headers and the new size. */
  function AtEnd(secs: seq<Section>, i: nat, initSize: nat): (r: (seq<Section>, nat))
    requires i < |secs|
    ensures |r.0| == |secs| && initSize <= r.1
  {
    var off := AlignUp(initSize, AlignOf(secs[i]));
    (secs[i := secs[i].(alloc := true, entsize := Mark(off, true))], off + secs[i].size)
  }

  function LayoutSymtab(secs: seq<Section>, sym: nat, str: nat, coreSize: nat, initSize: nat,
                        syms: seq<Symbol>, tab: seq<Byte>, all: bool): Layout
    requires sym < |secs| && str < |secs|
  {
    var (secs1, init1) := AtEnd(secs, sym, initSize);
    var kept := Kept(syms, secs1, all, |syms|);
    var symoffs := AlignUp(coreSize, AlignOf(secs[sym]));
    var stroffs := symoffs + |kept| * SYM_SIZE;
    var (secs2, init2) := AtEnd(secs1, str, init1);
    Layout(secs2, stroffs + Reserved(tab, syms, kept), init2, symoffs, stroffs)
  }

  lemma AtEndLaid(secs: seq<Section>, i: nat, coreSize: nat, initSize: nat)
    requires i < |secs| && Laid(secs, coreSize, initSize) && AtEnd(secs, i, initSize).1 < UINT
    ensures var (r, initSize') := AtEnd(secs, i, initSize);
            && Laid(r, coreSize, initSize')
            && r[i] == secs[i].(alloc := true, entsize := r[i].entsize) && IsInit(r[i].entsize)
            && (forall j :: 0 <= j < |secs| && j != i ==> r[j] == secs[j])
  {
    var (r, initSize') := AtEnd(secs, i, initSize);
    forall j | 0 <= j < |r| && r[j].alloc ensures Fits(r[j], coreSize, initSize') {
      assert j != i ==> Fits(secs[j], coreSize, initSize);
    }
    forall j | 0 <= j < |r| && j != i && r[j].alloc && IsInit(r[j].entsize) ensures Apart(r[j], r[i]) {
      assert Fits(secs[j], coreSize, initSize);
    }
  }

  lemma LaidInMore(secs: seq<Section>, coreSize: nat, coreSize': nat, initSize: nat)
    requires Laid(secs, coreSize, initSize) && coreSize <= coreSize'
    ensures Laid(secs, coreSize', initSize)
  {
    forall i | 0 <= i < |secs| && secs[i].alloc ensures Fits(secs[i], coreSize', initSize) {
      assert Fits(secs[i], coreSize, initSize);
    }
  }

  /**
   The layout stays one; both tables are allocated in init; the core symbols and strings lie behind
   every section of core, the symbols first and aligned.  Nothing is placed further on than alignment
   asks for.
   */
  lemma SymtabTheorem(secs: seq<Section>, sym: nat, str: nat, coreSize: nat, initSize: nat,
                      syms: seq<Symbol>, tab: seq<Byte>, all: bool)
    requires sym < |secs| && str < |secs| && Laid(secs, coreSize, initSize)
    requires LayoutSymtab(secs, sym, str, coreSize, initSize, syms, tab, all).initSize < UINT
    ensures var r := LayoutSymtab(secs, sym, str, coreSize, initSize, syms, tab, all);
            && |r.secs| == |secs| && Laid(r.secs, r.coreSize, r.initSize)
            && (forall i :: 0 <= i < |secs| && i != sym && i != str ==> r.secs[i] == secs[i])
            && (forall i :: 0 <= i < |secs| && (i == sym || i == str) ==>
                  r.secs[i].alloc && IsInit(r.secs[i].entsize))
            && (forall i :: 0 <= i < |secs| && r.secs[i].alloc && !IsInit(r.secs[i].entsize) ==>
                  Off(r.secs[i].entsize) + r.secs[i].size <= r.symoffs)
            && r.symoffs % AlignOf(secs[sym]) == 0 && coreSize <= r.symoffs < coreSize + AlignOf(secs[sym])
            && r.symoffs + |Kept(syms, AtEnd(secs, sym, initSize).0, all, |syms|)| * SYM_SIZE == r.stroffs
            && r.stroffs <= r.coreSize
            && (sym != str ==>
                  && initSize <= Off(r.secs[sym].entsize) < initSize + AlignOf(secs[sym])
                  && var end := Off(r.secs[sym].entsize) + secs[sym].size;
                     && end <= Off(r.secs[str].entsize) < end + AlignOf(secs[str])
                     && r.initSize == Off(r.secs[str].entsize) + secs[str].size)
  {
    var r := LayoutSymtab(secs, sym, str, coreSize, initSize, syms, tab, all);
    var (secs1, init1) := AtEnd(secs, sym, initSize);
    AtEndLaid(secs, sym, coreSize, initSize);
    AtEndLaid(secs1, str, coreSize, init1);
    LaidInMore(r.secs, coreSize, r.coreSize, r.initSize);
    forall i | 0 <= i < |secs| && r.secs[i].alloc && !IsInit(r.secs[i].entsize)
      ensures Off(r.secs[i].entsize) + r.secs[i].size <= r.symoffs
    {
      assert Fits(r.secs[i], coreSize, r.initSize);
    }
  }

  // ----- the two selections

  /** Symbols defined in the string table's own section, when it is a section of core. */
  predicate InStrtab(y: Symbol, secs: seq<Section>, str: nat, all: bool) {
    str < |secs| && y.shndx == str && str != SHN_UNDEF && y.name != 0 && CoreSection(secs[str], all)
  }

  /** Moving the string table to init drops just the symbols that it defines. */
  lemma CoreChange(y: Symbol, secs: seq<Section>, str: nat, initSize: nat, all: bool)
    requires str < |secs|
    ensures IsCore(y, AtEnd(secs, str, initSize).0, all) <==>
            IsCore(y, secs, all) && !InStrtab(y, secs, str, all)
    ensures InStrtab(y, secs, str, all) ==> IsCore(y, secs, all)
  {}

  /** The string bytes of the selection among the first `n`. */
  function Room(syms: seq<Symbol>, secs: seq<Section>, tab: seq<Byte>, all: bool, n: nat): nat
    requires n <= |syms|
  {
    Reserved(tab, syms, Kept(syms, secs, all, n))
  }

  lemma KeptStep(syms: seq<Symbol>, secs: seq<Section>, tab: seq<Byte>, all: bool, n: nat)
    requires 0 < n <= |syms|
    ensures if n == 1 || IsCore(syms[n - 1], secs, all)
            then && Kept(syms, secs, all, n) == Kept(syms, secs, all, n - 1) + [n - 1]
                 && Room(syms, secs, tab, all, n) ==
                    Room(syms, secs, tab, all, n - 1) + (|Name(tab, syms[n - 1].name)| + 1)
            else && Kept(syms, secs, all, n) == Kept(syms, secs, all, n - 1)
                 && Room(syms, secs, tab, all, n) == Room(syms, secs, tab, all, n - 1)
  {
    hide Name, Kept, Reserved, IsCore;
    KeptLast(syms, secs, tab, all, n);
  }

  /** A selection `after` against a selection `before`: smaller, and equal just if `same`. */
  predicate Shrinks(after: seq<nat>, before: seq<nat>, room: nat, room': nat, same: bool) {
    && |after| <= |before| && room <= room'
    && (|after| == |before| <==> same)
    && (after == before <==> same)
  }

  predicate NoneInStrtab(syms: seq<Symbol>, secs: seq<Section>, str: nat, all: bool, n: nat)
    requires n <= |syms|
  {
    forall i :: 0 < i < n ==> !InStrtab(syms[i], secs, str, all)
  }

  lemma NoneInStrtabNext(syms: seq<Symbol>, secs: seq<Section>, str: nat, all: bool, n: nat)
    requires 0 < n <= |syms|
    ensures NoneInStrtab(syms, secs, str, all, n) <==>
            NoneInStrtab(syms, secs, str, all, n - 1) && (n > 1 ==> !InStrtab(syms[n - 1], secs, str, all))
  {
    hide InStrtab;
  }

  lemma ShrinksNext(after: seq<nat>, before: seq<nat>, room: nat, room': nat, same: bool, i: nat, size: nat)
    requires Shrinks(after, before, room, room', same)
    ensures Shrinks(after + [i], before + [i], room + size, room' + size, same)
    ensures Shrinks(after, before + [i], room, room' + size, false)
  {
    assert after + [i] == before + [i] ==> after == (after + [i])[..|after|] == (before + [i])[..|before|] == before;
  }

  lemma {:induction false} KeptShrinks(syms: seq<Symbol>, secs: seq<Section>, secs': seq<Section>, str: nat,
                                       initSize: nat, tab: seq<Byte>, all: bool, n: nat)
    requires str < |secs| && n <= |syms| && secs' == AtEnd(secs, str, initSize).0
    ensures Shrinks(Kept(syms, secs', all, n), Kept(syms, secs, all, n), Room(syms, secs', tab, all, n),
                    Room(syms, secs, tab, all, n), NoneInStrtab(syms, secs, str, all, n))
  {
    hide *;
    if n == 0 {
      ShrinksNone(syms, secs, secs', str, tab, all);
    } else {
      KeptShrinks(syms, secs, secs', str, initSize, tab, all, n - 1);
      ShrinksStep(syms, secs, secs', str, initSize, tab, all, n,
                  Kept(syms, secs', all, n - 1), Kept(syms, secs, all, n - 1));
    }
  }

  lemma ShrinksNone(syms: seq<Symbol>, secs: seq<Section>, secs': seq<Section>, str: nat, tab: seq<Byte>, all: bool)
    ensures Shrinks(Kept(syms, secs', all, 0), Kept(syms, secs, all, 0), Room(syms, secs', tab, all, 0),
                    Room(syms, secs, tab, all, 0), NoneInStrtab(syms, secs, str, all, 0))
  {}

  lemma ShrinksStep(syms: seq<Symbol>, secs: seq<Section>, secs': seq<Section>, str: nat, initSize: nat,
                    tab: seq<Byte>, all: bool, n: nat, after: seq<nat>, before: seq<nat>)
    requires str < |secs| && 0 < n <= |syms| && secs' == AtEnd(secs, str, initSize).0
    requires after == Kept(syms, secs', all, n - 1) && before == Kept(syms, secs, all, n - 1)
    requires Shrinks(after, before, Room(syms, secs', tab, all, n - 1), Room(syms, secs, tab, all, n - 1),
                     NoneInStrtab(syms, secs, str, all, n - 1))
    ensures Shrinks(Kept(syms, secs', all, n), Kept(syms, secs, all, n), Room(syms, secs', tab, all, n),
                    Room(syms, secs, tab, all, n), NoneInStrtab(syms, secs, str, all, n))
  {
    hide *;
    CoreChange(syms[n - 1], secs, str, initSize, all);
    NoneInStrtabNext(syms, secs, str, all, n);
    KeptStep(syms, secs, tab, all, n);
    KeptStep(syms, secs', tab, all, n);
    ShrinksNext(after, before, Room(syms, secs', tab, all, n - 1), Room(syms, secs, tab, all, n - 1),
                NoneInStrtab(syms, secs, str, all, n - 1), n - 1, |Name(tab, syms[n - 1].name)| + 1);
  }

  /** How the last symbol enters the selection. */
  lemma KeptLast(syms: seq<Symbol>, secs: seq<Section>, tab: seq<Byte>, all: bool, n: nat)
    requires 0 < n <= |syms|
    ensures var front := Kept(syms, secs, all, n - 1);
            var r := Kept(syms, secs, all, n);
            if n == 1 || IsCore(syms[n - 1], secs, all)
            then r == front + [n - 1]
                 && Reserved(tab, syms, r) == Reserved(tab, syms, front) + |Name(tab, syms[n - 1].name)| + 1
            else r == front
  {
    var front := Kept(syms, secs, all, n - 1);
    assert (front + [n - 1])[..|front|] == front;
  }

  lemma {:induction false} KeptGrows(syms: seq<Symbol>, secs: seq<Section>, tab: seq<Byte>, all: bool, n: nat, m: nat)
    requires n <= m <= |syms|
    ensures |Kept(syms, secs, all, n)| <= |Kept(syms, secs, all, m)|
    ensures Reserved(tab, syms, Kept(syms, secs, all, n)) <= Reserved(tab, syms, Kept(syms, secs, all, m))
    decreases m
  {
    hide *;
    if n < m {
      KeptGrows(syms, secs, tab, all, n, m - 1);
      KeptLast(syms, secs, tab, all, m);
    }
  }

  /** One more symbol in the filled tables. */
  lemma FilledLast(tab: seq<Byte>, syms: seq<Symbol>, kept: seq<nat>, i: nat)
    requires i < |syms| && forall k :: 0 <= k < |kept| ==> kept[k] < |syms|
    ensures Strings(tab, syms, kept + [i]) == Strings(tab, syms, kept) + Slot(Name(tab, syms[i].name))
    ensures Entries(tab, syms, kept + [i]) == Entries(tab, syms, kept) + [syms[i].(name := Reserved(tab, syms, kept))]
    ensures Reserved(tab, syms, kept + [i]) == Reserved(tab, syms, kept) + |Name(tab, syms[i].name)| + 1
  {
    hide Name;
    StringsReserved(tab, syms, kept);
    assert (kept + [i])[..|kept|] == kept;
  }

  /**
   add_kallsyms selects the symbols that layout_symtab counted if and only if no symbol is defined
   in a string table that is itself a section of core; it never selects more than were counted.
   */
  lemma SizingAgrees(secs: seq<Section>, sym: nat, str: nat, coreSize: nat, initSize: nat,
                     syms: seq<Symbol>, tab: seq<Byte>, all: bool)
    requires sym < |secs| && str < |secs|
    ensures var r := LayoutSymtab(secs, sym, str, coreSize, initSize, syms, tab, all);
            var kept := Kept(syms, r.secs, all, |syms|);
            && (kept == Kept(syms, AtEnd(secs, sym, initSize).0, all, |syms|) <==>
                forall i :: 0 < i < |syms| ==> sym == str || !InStrtab(syms[i], secs, str, all))
            && r.symoffs + |kept| * SYM_SIZE <= r.stroffs
            && r.stroffs + Reserved(tab, syms, kept) <= r.coreSize
            && (kept == Kept(syms, AtEnd(secs, sym, initSize).0, all, |syms|) ==>
                && r.symoffs + |kept| * SYM_SIZE == r.stroffs
                && r.stroffs + Reserved(tab, syms, kept) == r.coreSize)
  {
    var (secs1, init1) := AtEnd(secs, sym, initSize);
    KeptShrinks(syms, secs1, AtEnd(secs1, str, init1).0, str, init1, tab, all, |syms|);
    hide Kept, Reserved, Name;
    assert sym != str ==> secs1[str] == secs[str];
  }

  /** A string table that is not SHF_ALLOC from the start. */
  lemma SizingAgreesUsually(secs: seq<Section>, sym: nat, str: nat, coreSize: nat, initSize: nat,
                            syms: seq<Symbol>, tab: seq<Byte>, all: bool)
    requires sym < |secs| && str < |secs| && !secs[str].alloc
    ensures var r := LayoutSymtab(secs, sym, str, coreSize, initSize, syms, tab, all);
            var kept := Kept(syms, r.secs, all, |syms|);
            && kept == Kept(syms, AtEnd(secs, sym, initSize).0, all, |syms|)
            && r.symoffs + |kept| * SYM_SIZE == r.stroffs
            && r.stroffs + Reserved(tab, syms, kept) == r.coreSize
  {
    SizingAgrees(secs, sym, str, coreSize, initSize, syms, tab, all);
  }

  /** Loaded with an executable string table in core that defines a symbol, the counts differ. */
  lemma SizingCanDiffer(coreSize: nat, initSize: nat)
    ensures var none := Section(false, false, false, false, false, false, 0, 0, UNSET, InFile(0));
            var text := Section(true, false, true, false, false, false, 1, 4, 0, InFile(0));
            var secs := [none, none, text];
            var syms := [Symbol(0, 0, 0, 0, 0, 0), Symbol(1, 0, 0, 2, 0, 0)];
            var tab := [0, 65, 0];
            var r := LayoutSymtab(secs, 1, 2, coreSize, initSize, syms, tab, false);
            |Kept(syms, r.secs, false, 2)| * SYM_SIZE < r.stroffs - r.symoffs
  {
    var none := Section(false, false, false, false, false, false, 0, 0, UNSET, InFile(0));
    var text := Section(true, false, true, false, false, false, 1, 4, 0, InFile(0));
    var secs := [none, none, text];
    var syms := [Symbol(0, 0, 0, 0, 0, 0), Symbol(1, 0, 0, 2, 0, 0)];
    var tab := [0, 65, 0];
    SizingAgrees(secs, 1, 2, coreSize, initSize, syms, tab, false);
    assert InStrtab(syms[1], secs, 2, false);
    var (secs1, init1) := AtEnd(secs, 1, initSize);
    KeptShrinks(syms, secs1, AtEnd(secs1, 2, init1).0, 2, init1, tab, false, 2);
  }

  // ----- reading the filled tables

  lemma {:induction false} StringsReserved(tab: seq<Byte>, syms: seq<Symbol>, kept: seq<nat>)
    requires forall k :: 0 <= k < |kept| ==> kept[k] < |syms|
    ensures |Strings(tab, syms, kept)| == Reserved(tab, syms, kept)
  {
    if kept != [] { StringsReserved(tab, syms, kept[..|kept| - 1]); }
  }

  /** A string put at `|a|` and followed by a NUL is what is read there. */
  lemma {:induction false} NameAt(a: seq<Byte>, s: seq<Byte>, rest: seq<Byte>)
    requires 0 !in s && |rest| > 0 && rest[0] == 0
    ensures Name(a + s + rest, |a|) == s
    decreases |s|
  {
    var tab := a + s + rest;
    if s != [] {
      assert a + s + rest == (a + [s[0]]) + s[1..] + rest;
      NameAt(a + [s[0]], s[1..], rest);
    }
  }

  /**
   Read back from the filled tables, the k-th kept symbol has its own fields, and its own name, whole
   if that is shorter than 128 bytes.
   */
  lemma {:induction false} ReadBack(tab: seq<Byte>, syms: seq<Symbol>, kept: seq<nat>, k: nat, more: seq<Byte>)
    requires forall k :: 0 <= k < |kept| ==> kept[k] < |syms|
    requires k < |kept|
    ensures var e := Entries(tab, syms, kept)[k];
            && e == syms[kept[k]].(name := e.name)
            && KeptAs(Name(tab, syms[kept[k]].name), Name(Strings(tab, syms, kept) + more, e.name))
    decreases |kept|
  {
    hide Name, Cut, Zeros, KeptAs;
    var front := kept[..|kept| - 1];
    var name := Name(tab, syms[kept[|kept| - 1]].name);
    if k < |front| {
      ReadBack(tab, syms, front, k, Slot(name) + more);
      assert Strings(tab, syms, front) + (Slot(name) + more) == Strings(tab, syms, kept) + more;
    } else {
      ReadLast(Strings(tab, syms, front), name, more);
    }
  }

  lemma ReadLast(before: seq<Byte>, name: seq<Byte>, more: seq<Byte>)
    requires 0 !in name
    ensures KeptAs(name, Name(before + Slot(name) + more, |before|))
  {
    var pad := Zeros(|name| + 1 - |Cut(name)|);
    NameAt(before, Cut(name), pad + more);
    assert Slot(name) == Cut(name) + pad && KeptAs(name, Cut(name));
    hide *;
    Regroup(before, Cut(name), pad, more);
  }

  lemma Regroup(a: seq<Byte>, b: seq<Byte>, c: seq<Byte>, d: seq<Byte>)
    ensures a + b + (c + d) == a + (b + c) + d
  {
    assert (a + b) + (c + d) == ((a + b) + c) + d;
    assert (a + b) + c == a + (b + c);
  }
}
