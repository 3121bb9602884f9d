/**
 Where the sections of a module go: layout_sections gives every SHF_ALLOC section an offset in the
 core or the init block, move_module copies the sections there.

 Section-header fields are those of the System V gABI, chapter 4, "Sections".
 */
module ModuleLayout {

  const UNSET: nat := 0xffff_ffff_ffff_ffff            // ~0UL
  const INIT_OFFSET_MASK: nat := 0x8000_0000_0000_0000
  const UINT: nat := 0x1_0000_0000                     // sizes are unsigned int
  const PAGE_SIZE: nat := 4096

  /** A value of sh_addr: in the temporary copy of the file, in the core or in the init block. */
  datatype Address = InFile(at: nat) | InCore(at: nat) | InInit(at: nat)

  /** `small` is ARCH_SHF_SMALL; `initName` says that the name starts with ".init". */
  datatype Section = Section(alloc: bool, write: bool, exec: bool, small: bool, initName: bool,
                             nobits: bool, align: nat, size: nat, entsize: nat, addr: Address)

  // ----- alignment

  function AlignOf(s: Section): (a: nat)
    ensures a > 0
  {
    if s.align == 0 then 1 else s.align
  }

  lemma MulAtLeast(k: int, a: nat)
    requires k >= 1
    ensures k * a >= a
  {
    assert (k - 1) * a >= 0;
  }

  lemma MulMod(q: nat, a: nat)
    requires a > 0
    ensures (q * a) % a == 0
  {
    var d := q - (q * a) / a;
    assert d * a == (q * a) % a;
    if d >= 1 { MulAtLeast(d, a); assert false; }
    if d <= -1 { MulAtLeast(-d, a); assert false; }
  }

  /** The greatest multiple of `a` up to `y`. */
  function Floor(y: nat, a: nat): (r: nat)
    requires a > 0
    ensures r <= y < r + a && r % a == 0
  {
    var q: nat := y / a;
    MulMod(q, a);
    q * a
  }

  /** The least multiple of `a` from `x` on. */
  function AlignUp(x: nat, a: nat): (r: nat)
    requires a > 0
    ensures x <= r < x + a && r % a == 0
  {
    Floor(x + a - 1, a)
  }

  /** ALIGN on an unsigned int, `a` a power of two: add with wrap-around, then clear low bits. */
  function Align32(x: nat, a: nat): nat
    requires a > 0
  {
    Floor((x + a - 1) % UINT, a)
  }

  /** Powers of two. */
  predicate PowerOfTwo(a: nat)
    decreases a
  {
    a == 1 || (a > 1 && a % 2 == 0 && PowerOfTwo(a / 2))
  }

  lemma {:induction false} DividesUint(a: nat, k: nat)
    requires 0 < a <= k && PowerOfTwo(a) && PowerOfTwo(k)
    ensures exists q: nat :: q * a == k
    decreases a
  {
    if a == 1 {
      assert k * 1 == k;
    } else {
      DividesUint(a / 2, k / 2);
      var q: nat :| q * (a / 2) == k / 2;
      assert q * a == k;
    }
  }

  lemma Doubled(a: nat)
    requires PowerOfTwo(a)
    ensures PowerOfTwo(2 * a)
  {
    assert (2 * a) / 2 == a;
  }

  lemma TimesSixteen(a: nat)
    requires PowerOfTwo(a)
    ensures PowerOfTwo(16 * a)
  {
    hide PowerOfTwo;
    Doubled(a);
    Doubled(2 * a);
    Doubled(4 * a);
    Doubled(8 * a);
    assert 2 * (2 * a) == 4 * a && 2 * (4 * a) == 8 * a && 2 * (8 * a) == 16 * a;
  }

  lemma UintIsPower()
    ensures PowerOfTwo(UINT)
  {
    assert PowerOfTwo(1);
    hide PowerOfTwo;
    TimesSixteen(1);
    TimesSixteen(0x10);
    TimesSixteen(0x100);
    TimesSixteen(0x1000);
    TimesSixteen(0x1_0000);
    TimesSixteen(0x10_0000);
    TimesSixteen(0x100_0000);
    TimesSixteen(0x1000_0000);
  }

  /** A multiple of `a` is not passed over by Floor. */
  lemma FloorReaches(y: nat, a: nat, q: nat)
    requires a > 0 && q * a <= y
    ensures q * a <= Floor(y, a)
  {
    var d := q - y / a;
    assert d * a == q * a - Floor(y, a);
    if d >= 1 { MulAtLeast(d, a); assert false; }
    assert -d * a >= 0;
  }

  lemma SmallMultiple(r: nat, a: nat)
    requires r < a && r % a == 0
    ensures r == 0
  {}

  /** While the result fits in 32 bits, wrap-around does not show. */
  lemma AlignFits(x: nat, a: nat)
    requires a > 0 && PowerOfTwo(a) && AlignUp(x, a) < UINT
    ensures Align32(x, a) == AlignUp(x, a)
  {
    hide Floor, PowerOfTwo;
    UintIsPower();
    if a > UINT {
      SmallMultiple(AlignUp(x, a), a);
      SmallMultiple(Align32(x, a), a);
      return;
    }
    DividesUint(a, UINT);
    var q: nat :| q * a == UINT;
    if x + a - 1 >= UINT {
      FloorReaches(x + a - 1, a, q);
      assert false;
    }
  }

  // ----- layout_sections

  /** The four rows of the masks table, in order: executable, read-only, writable, small. */
  predicate Matches(s: Section, m: nat) {
    s.alloc && (match m
                case 0 => s.exec && !s.small
                case 1 => !s.write && !s.small
                case 2 => s.write && !s.small
                case _ => true)
  }

  predicate Wants(s: Section, m: nat, init: bool) {
    Matches(s, m) && s.entsize == UNSET && s.initName == init
  }

  /** The value of sh_entsize: the offset, with the top bit for the init block. */
  function Mark(off: nat, init: bool): nat { if init then off + INIT_OFFSET_MASK else off }

  predicate IsInit(e: nat) { e >= INIT_OFFSET_MASK }

  function Off(e: nat): nat { if IsInit(e) then e - INIT_OFFSET_MASK else e }

  /** One pass over the section headers, from header `i` on; get_offset is inlined. */
  function PlaceFrom(secs: seq<Section>, m: nat, init: bool, i: nat, size: nat): (r: (seq<Section>, nat))
    requires i <= |secs|
    ensures |r.0| == |secs| && size <= r.1
    decreases |secs| - i
  {
    if i == |secs| then (secs, size)
    else if Wants(secs[i], m, init) then
      var off := AlignUp(size, AlignOf(secs[i]));
      PlaceFrom(secs[i := secs[i].(entsize := Mark(off, init))], m, init, i + 1, off + secs[i].size)
    else PlaceFrom(secs, m, init, i + 1, size)
  }

  /** debug_align */
  function DebugAlign(size: nat, ronx: bool): (r: nat)
    ensures size <= r < size + PAGE_SIZE
    ensures if ronx then r % PAGE_SIZE == 0 else r == size
  {
    if ronx then AlignUp(size, PAGE_SIZE) else size
  }

  function Pass(secs: seq<Section>, m: nat, init: bool, size: nat, ronx: bool): (r: (seq<Section>, nat))
    ensures |r.0| == |secs| && size <= r.1
  {
    var (secs1, size1) := PlaceFrom(secs, m, init, 0, size);
    (secs1, if m == 2 then size1 else DebugAlign(size1, ronx))
  }

  /** The layout of one block: sizes after the executable pass, the read-only pass, and all. */
  datatype Block = Block(secs: seq<Section>, text: nat, ro: nat, data: nat, total: nat)

  function LayoutBlock(secs: seq<Section>, init: bool, ronx: bool): (r: Block)
    ensures |r.secs| == |secs| && r.text <= r.ro <= r.data <= r.total
  {
    var (s0, text) := Pass(secs, 0, init, 0, ronx);
    var (s1, ro) := Pass(s0, 1, init, text, ronx);
    var (s2, data) := Pass(s1, 2, init, ro, ronx);
    var (s3, total) := Pass(s2, 3, init, data, ronx);
    Block(s3, text, ro, data, total)
  }

  function Unset(secs: seq<Section>): seq<Section> {
    seq(|secs|, i requires 0 <= i < |secs| => secs[i].(entsize := UNSET))
  }

  /** layout_sections: the core block, then the init block. */
  function LayoutSections(secs: seq<Section>, ronx: bool): (r: (Block, Block))
    ensures |r.1.secs| == |secs|
  {
    var core := LayoutBlock(Unset(secs), false, ronx);
    (core, LayoutBlock(core.secs, true, ronx))
  }

  // ----- what a layout guarantees

  /** The row of the masks table that claims a section. */
  function Kind(s: Section): nat {
    if s.small then 3 else if s.exec then 0 else if !s.write then 1 else 2
  }

  predicate InBlock(s: Section, init: bool) {
    s.entsize != UNSET && IsInit(s.entsize) == init
  }

  predicate Apart(s: Section, t: Section) {
    Off(s.entsize) + s.size <= Off(t.entsize) || Off(t.entsize) + t.size <= Off(s.entsize)
  }

  /** Where a section of each kind may lie: kind `k` between `b[k]` and `b[k + 1]`, the kind being
      laid out between `b[k]` and `size`. */
  predicate Inside(s: Section, init: bool, b: seq<nat>, size: nat) {
    && s.alloc && s.initName == init && Kind(s) < |b|
    && Off(s.entsize) % AlignOf(s) == 0
    && b[Kind(s)] <= Off(s.entsize)
    && Off(s.entsize) + s.size <= (if Kind(s) + 1 < |b| then b[Kind(s) + 1] else size)
  }

  predicate Rising(b: seq<nat>, size: nat) {
    && (forall i :: 0 < i < |b| ==> b[i - 1] <= b[i])
    && (forall i :: 0 <= i < |b| ==> b[i] <= size)
  }

  predicate Placed(secs: seq<Section>, init: bool, b: seq<nat>, size: nat) {
    && Rising(b, size)
    && (forall i :: 0 <= i < |secs| && InBlock(secs[i], init) ==> Inside(secs[i], init, b, size))
    && (forall i, j :: 0 <= i < j < |secs| && InBlock(secs[i], init) && InBlock(secs[j], init) ==>
          Apart(secs[i], secs[j]))
  }

  predicate Due(s: Section, init: bool, k: nat, early: bool) {
    s.alloc && s.initName == init && (Kind(s) < k || (Kind(s) == k && early))
  }

  /** Every section of the block of kind below `k`, and of kind `k` among the first `n`, is placed. */
  predicate Complete(secs: seq<Section>, init: bool, k: nat, n: nat) {
    forall i :: 0 <= i < |secs| && Due(secs[i], init, k, i < n) ==> secs[i].entsize != UNSET
  }

  /** Only unset headers change, only in sh_entsize, and only those with the block's kind of name. */
  predicate Extends(a: seq<Section>, b: seq<Section>, init: bool) {
    && |a| == |b|
    && (forall i :: 0 <= i < |a| ==> b[i] == a[i].(entsize := b[i].entsize))
    && (forall i :: 0 <= i < |a| && (a[i].entsize != UNSET || a[i].initName != init) ==> b[i] == a[i])
    && (forall i :: 0 <= i < |a| && b[i] != a[i] ==> InBlock(b[i], init))
  }

  lemma InsideGrows(s: Section, init: bool, b: seq<nat>, size: nat, size': nat)
    requires Inside(s, init, b, size) && size <= size'
    ensures Inside(s, init, b, size')
  {}

  /** At the pass for kind `k`, an unplaced header that matches is of kind `k`. */
  lemma MatchedKind(secs: seq<Section>, init: bool, k: nat, i: nat)
    requires i < |secs| && k < 4 && Complete(secs, init, k, i) && Wants(secs[i], k, init)
    ensures Kind(secs[i]) == k
  {}

  lemma PlaceOne(secs: seq<Section>, init: bool, b: seq<nat>, i: nat, size: nat)
    requires |b| > 0 && i < |secs| && Placed(secs, init, b, size)
    requires Wants(secs[i], |b| - 1, init) && Kind(secs[i]) == |b| - 1
    requires AlignUp(size, AlignOf(secs[i])) + secs[i].size < UINT
    ensures var off := AlignUp(size, AlignOf(secs[i]));
            Placed(secs[i := secs[i].(entsize := Mark(off, init))], init, b, off + secs[i].size)
  {
    hide AlignUp;
    var off := AlignUp(size, AlignOf(secs[i]));
    var t := secs[i := secs[i].(entsize := Mark(off, init))];
    forall j | 0 <= j < |t| && InBlock(t[j], init) ensures Inside(t[j], init, b, off + secs[i].size) {
      if j != i { InsideGrows(t[j], init, b, size, off + secs[i].size); }
    }
    forall j | 0 <= j < |t| && j != i && InBlock(t[j], init) ensures Apart(t[j], t[i]) {
      assert Inside(secs[j], init, b, size);
    }
  }

  lemma {:induction false} PlaceFromOk(secs: seq<Section>, init: bool, b: seq<nat>, i: nat, size: nat)
    requires 0 < |b| <= 4 && i <= |secs| && Placed(secs, init, b, size)
    requires Complete(secs, init, |b| - 1, i)
    requires PlaceFrom(secs, |b| - 1, init, i, size).1 < UINT
    ensures var (r, size') := PlaceFrom(secs, |b| - 1, init, i, size);
            && Placed(r, init, b, size') && Complete(r, init, |b| - 1, |r|) && Extends(secs, r, init)
    decreases |secs| - i
  {
    var k := |b| - 1;
    hide AlignUp, Placed, Complete, Wants, Kind, Matches, Extends;
    if i < |secs| {
      if Wants(secs[i], k, init) {
        var off := AlignUp(size, AlignOf(secs[i]));
        MatchedKind(secs, init, k, i);
        PlaceOne(secs, init, b, i, size);
        var t := secs[i := secs[i].(entsize := Mark(off, init))];
        CompleteOne(secs, init, k, i, off);
        ExtendsOne(secs, init, k, i, off);
        PlaceFromOk(t, init, b, i + 1, off + secs[i].size);
        ExtendsTrans(secs, t, PlaceFrom(secs, k, init, i, size).0, init);
      } else {
        CompleteNext(secs, init, k, i);
        PlaceFromOk(secs, init, b, i + 1, size);
      }
    } else {
      ExtendsSelf(secs, init);
    }
  }

  lemma ExtendsSelf(secs: seq<Section>, init: bool)
    ensures Extends(secs, secs, init)
  {}

  lemma ExtendsOne(secs: seq<Section>, init: bool, k: nat, i: nat, off: nat)
    requires i < |secs| && Wants(secs[i], k, init) && off < UINT
    ensures Extends(secs, secs[i := secs[i].(entsize := Mark(off, init))], init)
  {}

  lemma CompleteOne(secs: seq<Section>, init: bool, k: nat, i: nat, off: nat)
    requires i < |secs| && Complete(secs, init, k, i) && off < UINT
    ensures Complete(secs[i := secs[i].(entsize := Mark(off, init))], init, k, i + 1)
  {}

  lemma CompleteNext(secs: seq<Section>, init: bool, k: nat, i: nat)
    requires k < 4 && i < |secs| && Complete(secs, init, k, i) && !Wants(secs[i], k, init)
    ensures Complete(secs, init, k, i + 1)
  {}

  // ----- whole passes and blocks

  lemma InsideNext(s: Section, init: bool, b: seq<nat>, size: nat, size': nat)
    requires Inside(s, init, b, size) && size <= size'
    ensures Inside(s, init, b + [size'], size')
  {}

  lemma PlacedNext(secs: seq<Section>, init: bool, b: seq<nat>, size: nat, size': nat)
    requires Placed(secs, init, b, size) && size <= size'
    ensures Placed(secs, init, b + [size'], size')
  {
    forall i | 0 <= i < |secs| && InBlock(secs[i], init) ensures Inside(secs[i], init, b + [size'], size') {
      InsideNext(secs[i], init, b, size, size');
    }
  }

  lemma CompleteAll(secs: seq<Section>, init: bool, k: nat)
    requires Complete(secs, init, k, |secs|)
    ensures Complete(secs, init, k + 1, 0)
  {
    forall i | 0 <= i < |secs| && Due(secs[i], init, k + 1, i < 0) ensures secs[i].entsize != UNSET {
      assert Due(secs[i], init, k, i < |secs|);
    }
  }

  lemma PassOk(secs: seq<Section>, init: bool, b: seq<nat>, size: nat, ronx: bool)
    requires 0 < |b| <= 4 && Placed(secs, init, b, size) && Complete(secs, init, |b| - 1, 0)
    requires Pass(secs, |b| - 1, init, size, ronx).1 < UINT
    ensures var (r, size') := Pass(secs, |b| - 1, init, size, ronx);
            && Placed(r, init, b + [size'], size') && Complete(r, init, |b|, 0) && Extends(secs, r, init)
  {
    PlaceFromOk(secs, init, b, 0, size);
    var (r, size1) := PlaceFrom(secs, |b| - 1, init, 0, size);
    PlacedNext(r, init, b, size1, Pass(secs, |b| - 1, init, size, ronx).1);
    CompleteAll(r, init, |b| - 1);
  }

  /** The same, with the results named. */
  lemma NextPass(secs: seq<Section>, init: bool, m: nat, b: seq<nat>, size: nat, ronx: bool,
                 r: seq<Section>, size': nat, b': seq<nat>)
    requires m < 4 && |b| == m + 1 && b' == b + [size']
    requires (r, size') == Pass(secs, m, init, size, ronx) && size' < UINT
    requires Placed(secs, init, b, size) && Complete(secs, init, m, 0)
    ensures Placed(r, init, b', size') && Complete(r, init, m + 1, 0) && Extends(secs, r, init)
  {
    hide *;
    PassOk(secs, init, b, size, ronx);
  }

  lemma ExtendsTrans(a: seq<Section>, b: seq<Section>, c: seq<Section>, init: bool)
    requires Extends(a, b, init) && Extends(b, c, init)
    ensures Extends(a, c, init)
  {}

  /** None of a block's sections is placed yet. */
  predicate Fresh(secs: seq<Section>, init: bool) {
    forall i :: 0 <= i < |secs| ==> !InBlock(secs[i], init)
  }

  function Bounds(r: Block): seq<nat> { [0, r.text, r.ro, r.data, r.total] }

  /** Parts of a block that are protected differently share no page. */
  predicate OnPages(r: Block) {
    r.text % PAGE_SIZE == 0 && r.ro % PAGE_SIZE == 0 && r.total % PAGE_SIZE == 0
  }

  lemma LayoutOnPages(secs: seq<Section>, init: bool)
    ensures OnPages(LayoutBlock(secs, init, true))
  {
    hide PlaceFrom, DebugAlign;
  }

  lemma LayoutBlockOk(secs: seq<Section>, init: bool, ronx: bool)
    requires Fresh(secs, init) && LayoutBlock(secs, init, ronx).total < UINT
    ensures var r := LayoutBlock(secs, init, ronx);
            && Placed(r.secs, init, Bounds(r), r.total)
            && Complete(r.secs, init, 4, 0) && Extends(secs, r.secs, init)
  {
    var (s0, text) := Pass(secs, 0, init, 0, ronx);
    var (s1, ro) := Pass(s0, 1, init, text, ronx);
    var (s2, data) := Pass(s1, 2, init, ro, ronx);
    var (s3, total) := Pass(s2, 3, init, data, ronx);
    assert Placed(secs, init, [0], 0) && Complete(secs, init, 0, 0);
    hide *;
    NextPass(secs, init, 0, [0], 0, ronx, s0, text, [0, text]);
    NextPass(s0, init, 1, [0, text], text, ronx, s1, ro, [0, text, ro]);
    NextPass(s1, init, 2, [0, text, ro], ro, ronx, s2, data, [0, text, ro, data]);
    NextPass(s2, init, 3, [0, text, ro, data], data, ronx, s3, total, [0, text, ro, data, total]);
    ExtendsTrans(secs, s0, s1, init);
    ExtendsTrans(secs, s1, s2, init);
    ExtendsTrans(secs, s2, s3, init);
  }

  /** Every SHF_ALLOC section has an aligned place of its own in its block. */
  predicate Laid(secs: seq<Section>, coreSize: nat, initSize: nat) {
    && (forall i :: 0 <= i < |secs| && secs[i].alloc ==> Fits(secs[i], coreSize, initSize))
    && (forall i, j :: 0 <= i < j < |secs| && secs[i].alloc && secs[j].alloc ==>
          IsInit(secs[i].entsize) != IsInit(secs[j].entsize) || Apart(secs[i], secs[j]))
  }

  predicate Fits(s: Section, coreSize: nat, initSize: nat) {
    && s.entsize != UNSET
    && Off(s.entsize) % AlignOf(s) == 0
    && Off(s.entsize) + s.size <= (if IsInit(s.entsize) then initSize else coreSize)
  }

  /** Text before read-only data before the rest, at the recorded sizes. */
  predicate InOrder(s: Section, r: Block) {
    var end := Off(s.entsize) + s.size;
    if s.exec && !s.small then end <= r.text
    else if !s.write && !s.small then r.text <= Off(s.entsize) && end <= r.ro
    else r.ro <= Off(s.entsize) && end <= r.total
  }

  lemma InsideInOrder(s: Section, init: bool, r: Block)
    requires Inside(s, init, Bounds(r), r.total) && Rising(Bounds(r), r.total)
    requires InBlock(s, init)
    ensures InOrder(s, r) && Fits(s, r.total, r.total)
  {
    var b := Bounds(r);
    assert b[2] <= b[3] <= b[4];
  }

  /** What both blocks guarantee about one section. */
  lemma BlockSection(secs: seq<Section>, init: bool, ronx: bool, i: nat)
    requires Fresh(secs, init) && LayoutBlock(secs, init, ronx).total < UINT
    requires i < |secs| && secs[i].alloc && secs[i].initName == init && secs[i].entsize == UNSET
    ensures var r := LayoutBlock(secs, init, ronx);
            && InBlock(r.secs[i], init) && InOrder(r.secs[i], r) && Fits(r.secs[i], r.total, r.total)
  {
    var r := LayoutBlock(secs, init, ronx);
    LayoutBlockOk(secs, init, ronx);
    hide LayoutBlock;
    assert Due(r.secs[i], init, 4, false);
    assert r.secs[i] != secs[i];
    assert Inside(r.secs[i], init, Bounds(r), r.total);
    InsideInOrder(r.secs[i], init, r);
  }

  /**
   The header of every section keeps all but sh_entsize; every SHF_ALLOC section is aligned, in
   init exactly if its name starts with ".init", apart from the others, and in the order of kinds.
   With page protection the text, the read-only part and the whole of a block end on page boundaries.
   */
  lemma LayoutTheorem(secs: seq<Section>, ronx: bool)
    requires var (core, init) := LayoutSections(secs, ronx); core.total < UINT && init.total < UINT
    ensures var (core, init) := LayoutSections(secs, ronx);
            && Laid(init.secs, core.total, init.total)
            && (ronx ==> OnPages(core) && OnPages(init))
            && (forall i :: 0 <= i < |secs| ==>
                  && init.secs[i] == secs[i].(entsize := init.secs[i].entsize)
                  && (if secs[i].alloc
                      then && IsInit(init.secs[i].entsize) == secs[i].initName
                           && InOrder(init.secs[i], if secs[i].initName then init else core)
                      else init.secs[i].entsize == UNSET))
  {
    var u := Unset(secs);
    var (core, init) := LayoutSections(secs, ronx);
    assert Fresh(u, false);
    LayoutBlockOk(u, false, ronx);
    if ronx {
      LayoutOnPages(u, false);
      LayoutOnPages(core.secs, true);
    }
    hide OnPages;
    assert Fresh(core.secs, true) by { hide LayoutBlock, LayoutSections; }
    LayoutBlockOk(core.secs, true, ronx);
    forall i | 0 <= i < |secs|
      ensures LaidSection(secs[i], init.secs[i], core, init)
    {
      LayoutOne(secs, ronx, i);
    }
    forall i, j | 0 <= i < j < |secs| && init.secs[i].alloc && init.secs[j].alloc
                  && IsInit(init.secs[i].entsize) == IsInit(init.secs[j].entsize)
      ensures Apart(init.secs[i], init.secs[j])
    {
      hide LayoutBlock, LayoutSections, InOrder;
      assert LaidSection(secs[i], init.secs[i], core, init);
      assert LaidSection(secs[j], init.secs[j], core, init);
    }
  }

  predicate LaidSection(s: Section, t: Section, core: Block, init: Block) {
    && t == s.(entsize := t.entsize)
    && (if s.alloc
        then && IsInit(t.entsize) == s.initName
             && InOrder(t, if s.initName then init else core)
             && Fits(t, core.total, init.total)
        else t.entsize == UNSET)
  }

  lemma LayoutOne(secs: seq<Section>, ronx: bool, i: nat)
    requires i < |secs|
    requires var (core, init) := LayoutSections(secs, ronx); core.total < UINT && init.total < UINT
    ensures var (core, init) := LayoutSections(secs, ronx); LaidSection(secs[i], init.secs[i], core, init)
  {
    var u := Unset(secs);
    var (core, init) := LayoutSections(secs, ronx);
    LayoutBlockOk(u, false, ronx);
    hide LayoutBlock;
    LayoutBlockOk(core.secs, true, ronx);
    if secs[i].alloc {
      if secs[i].initName {
        BlockSection(core.secs, true, ronx, i);
      } else {
        BlockSection(u, false, ronx, i);
      }
    }
  }

  // ----- no room is wasted

  /** A section of kind `k` ends at `e`. */
  predicate EndsAt(secs: seq<Section>, init: bool, k: nat, e: nat) {
    exists j :: 0 <= j < |secs| && InBlock(secs[j], init) && Kind(secs[j]) == k && Off(secs[j].entsize) + secs[j].size == e
  }

  predicate Reached(secs: seq<Section>, init: bool, k: nat, base: nat, e: nat) {
    e == base || EndsAt(secs, init, k, e)
  }

  /** Section `i` starts where its kind starts or where another of its kind ends, up to alignment. */
  ghost predicate SnugAt(secs: seq<Section>, init: bool, b: seq<nat>, i: nat)
    requires i < |secs|
  {
    var s := secs[i];
    Kind(s) < |b| &&
    exists e: nat :: Reached(secs, init, Kind(s), b[Kind(s)], e) && e <= Off(s.entsize) < e + AlignOf(s)
  }

  ghost predicate Snug(secs: seq<Section>, init: bool, b: seq<nat>) {
    forall i :: 0 <= i < |secs| && InBlock(secs[i], init) ==> SnugAt(secs, init, b, i)
  }

  /** The next kind starts where kind `k` ends, or on the next page boundary if it is protected differently. */
  predicate Follows(ronx: bool, k: nat, e: nat, next: nat) {
    if ronx && k != 2 then e <= next < e + PAGE_SIZE && next % PAGE_SIZE == 0 else next == e
  }

  ghost predicate Gapless(secs: seq<Section>, init: bool, b: seq<nat>, ronx: bool) {
    forall k :: 0 <= k < |b| - 1 ==> GapAt(secs, init, b, ronx, k)
  }

  ghost predicate GapAt(secs: seq<Section>, init: bool, b: seq<nat>, ronx: bool, k: nat)
    requires k + 1 < |b|
  {
    exists e: nat :: Reached(secs, init, k, b[k], e) && Follows(ronx, k, e, b[k + 1])
  }

  lemma EndsStay(a: seq<Section>, c: seq<Section>, init: bool, k: nat, base: nat, e: nat)
    requires Extends(a, c, init) && Reached(a, init, k, base, e)
    ensures Reached(c, init, k, base, e)
  {
    if e != base {
      var j :| 0 <= j < |a| && InBlock(a[j], init) && Kind(a[j]) == k && Off(a[j].entsize) + a[j].size == e;
      assert c[j] == a[j];
    }
  }

  lemma SnugStays(a: seq<Section>, c: seq<Section>, init: bool, b: seq<nat>, i: nat)
    requires Extends(a, c, init) && i < |a| && InBlock(a[i], init) && SnugAt(a, init, b, i)
    ensures SnugAt(c, init, b, i)
  {
    hide EndsAt, Reached;
    var s := a[i];
    var e: nat :| Reached(a, init, Kind(s), b[Kind(s)], e) && e <= Off(s.entsize) < e + AlignOf(s);
    EndsStay(a, c, init, Kind(s), b[Kind(s)], e);
    assert c[i] == s;
  }

  lemma SnugOne(secs: seq<Section>, init: bool, b: seq<nat>, i: nat, size: nat)
    requires |b| > 0 && i < |secs| && Snug(secs, init, b) && Wants(secs[i], |b| - 1, init) && Kind(secs[i]) == |b| - 1
    requires Reached(secs, init, |b| - 1, b[|b| - 1], size)
    requires AlignUp(size, AlignOf(secs[i])) + secs[i].size < UINT
    ensures var off := AlignUp(size, AlignOf(secs[i]));
            var t := secs[i := secs[i].(entsize := Mark(off, init))];
            Snug(t, init, b) && Reached(t, init, |b| - 1, b[|b| - 1], off + secs[i].size)
  {
    var off := AlignUp(size, AlignOf(secs[i]));
    var t := secs[i := secs[i].(entsize := Mark(off, init))];
    ExtendsOne(secs, init, |b| - 1, i, off);
    EndsStay(secs, t, init, |b| - 1, b[|b| - 1], size);
    assert InBlock(t[i], init) && Off(t[i].entsize) == off && Kind(t[i]) == |b| - 1;
    assert EndsAt(t, init, |b| - 1, off + secs[i].size);
    hide AlignUp, EndsAt, Reached, Wants, Matches, Kind;
    forall j | 0 <= j < |t| && InBlock(t[j], init) ensures SnugAt(t, init, b, j) {
      if j != i { SnugStays(secs, t, init, b, j); }
    }
  }

  lemma {:induction false} SnugFrom(secs: seq<Section>, init: bool, b: seq<nat>, i: nat, size: nat)
    requires 0 < |b| <= 4 && i <= |secs| && Complete(secs, init, |b| - 1, i)
    requires Snug(secs, init, b) && Reached(secs, init, |b| - 1, b[|b| - 1], size)
    requires PlaceFrom(secs, |b| - 1, init, i, size).1 < UINT
    ensures var (r, size') := PlaceFrom(secs, |b| - 1, init, i, size);
            Snug(r, init, b) && Reached(r, init, |b| - 1, b[|b| - 1], size')
    decreases |secs| - i
  {
    var k := |b| - 1;
    hide AlignUp, Complete, Wants, Kind, Matches, Snug, Reached;
    if i < |secs| {
      if Wants(secs[i], k, init) {
        var off := AlignUp(size, AlignOf(secs[i]));
        MatchedKind(secs, init, k, i);
        SnugOne(secs, init, b, i, size);
        CompleteOne(secs, init, k, i, off);
        SnugFrom(secs[i := secs[i].(entsize := Mark(off, init))], init, b, i + 1, off + secs[i].size);
      } else {
        CompleteNext(secs, init, k, i);
        SnugFrom(secs, init, b, i + 1, size);
      }
    }
  }

  lemma SnugPass(secs: seq<Section>, init: bool, m: nat, b: seq<nat>, size: nat, ronx: bool,
                 r: seq<Section>, size': nat, b': seq<nat>)
    requires m < 4 && |b| == m + 1 && b' == b + [size'] && b[m] == size
    requires (r, size') == Pass(secs, m, init, size, ronx) && size' < UINT
    requires Complete(secs, init, m, 0) && Extends(secs, r, init)
    requires Snug(secs, init, b) && Gapless(secs, init, b, ronx)
    ensures Snug(r, init, b') && Gapless(r, init, b', ronx)
  {
    var size1 := PlaceFrom(secs, m, init, 0, size).1;
    assert Reached(secs, init, m, b[m], size);
    SnugFrom(secs, init, b, 0, size);
    assert Reached(r, init, m, b[m], size1) && Follows(ronx, m, size1, size');
    hide *;
    SnugMore(r, init, b, b');
    GaplessMore(secs, r, init, b, b', ronx, size1, size');
  }

  lemma GaplessMore(secs: seq<Section>, r: seq<Section>, init: bool, b: seq<nat>, b': seq<nat>, ronx: bool, size1: nat, size': nat)
    requires Gapless(secs, init, b, ronx) && Extends(secs, r, init) && b != [] && b' == b + [size']
    requires Reached(r, init, |b| - 1, b[|b| - 1], size1) && Follows(ronx, |b| - 1, size1, size')
    ensures Gapless(r, init, b', ronx)
  {
    hide Reached, Extends, Follows;
    forall k | 0 <= k < |b'| - 1 ensures GapAt(r, init, b', ronx, k) {
      if k < |b| - 1 {
        assert GapAt(secs, init, b, ronx, k);
        var e: nat :| Reached(secs, init, k, b[k], e) && Follows(ronx, k, e, b[k + 1]);
        EndsStay(secs, r, init, k, b[k], e);
        assert Reached(r, init, k, b'[k], e) && Follows(ronx, k, e, b'[k + 1]);
      } else {
        assert Reached(r, init, k, b'[k], size1) && Follows(ronx, k, size1, b'[k + 1]);
      }
    }
  }

  lemma SnugMore(r: seq<Section>, init: bool, b: seq<nat>, b': seq<nat>)
    requires Snug(r, init, b) && b <= b'
    ensures Snug(r, init, b')
  {
    hide Reached, Kind;
    forall i | 0 <= i < |r| && InBlock(r[i], init) ensures SnugAt(r, init, b', i) {
      assert SnugAt(r, init, b, i);
    }
  }

  /** In each block every section starts where its kind starts or another of its kind ends, moved on by
      less than its alignment, and every kind starts where the one before ends, or on the next page. */
  lemma LayoutIsSnug(secs: seq<Section>, init: bool, ronx: bool)
    requires Fresh(secs, init) && LayoutBlock(secs, init, ronx).total < UINT
    ensures var r := LayoutBlock(secs, init, ronx);
            Snug(r.secs, init, Bounds(r)) && Gapless(r.secs, init, Bounds(r), ronx)
  {
    var (s0, text) := Pass(secs, 0, init, 0, ronx);
    var (s1, ro) := Pass(s0, 1, init, text, ronx);
    var (s2, data) := Pass(s1, 2, init, ro, ronx);
    var (s3, total) := Pass(s2, 3, init, data, ronx);
    assert Placed(secs, init, [0], 0) && Complete(secs, init, 0, 0) && Snug(secs, init, [0]) && Gapless(secs, init, [0], ronx);
    hide *;
    NextPass(secs, init, 0, [0], 0, ronx, s0, text, [0, text]);
    SnugPass(secs, init, 0, [0], 0, ronx, s0, text, [0, text]);
    NextPass(s0, init, 1, [0, text], text, ronx, s1, ro, [0, text, ro]);
    SnugPass(s0, init, 1, [0, text], text, ronx, s1, ro, [0, text, ro]);
    NextPass(s1, init, 2, [0, text, ro], ro, ronx, s2, data, [0, text, ro, data]);
    SnugPass(s1, init, 2, [0, text, ro], ro, ronx, s2, data, [0, text, ro, data]);
    NextPass(s2, init, 3, [0, text, ro, data], data, ronx, s3, total, [0, text, ro, data, total]);
    SnugPass(s2, init, 3, [0, text, ro, data], data, ronx, s3, total, [0, text, ro, data, total]);
  }
}
