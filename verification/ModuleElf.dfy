/**
 Symbol-table entries as bytes: the Elf64_Sym of the System V gABI, little-endian.
 */
module ModuleElf {
  import opened ModuleSymtab

  /** 256 to the power of `n` */
  function Span(n: nat): (r: nat)
    ensures r > 0
  {
    if n == 0 then 1 else 256 * Span(n - 1)
  }

  /** The low `n` bytes of `v`, lowest first. */
  function Bytes(v: nat, n: nat): (r: seq<Byte>)
    ensures |r| == n
  {
    if n == 0 then [] else [(v % 256) as Byte] + Bytes(v / 256, n - 1)
  }

  function Value(b: seq<Byte>): nat {
    if b == [] then 0 else b[0] as nat + 256 * Value(b[1..])
  }

  lemma {:induction false} BytesValue(v: nat, n: nat)
    requires v < Span(n)
    ensures Value(Bytes(v, n)) == v
  {
    if n > 0 { BytesValue(v / 256, n - 1); }
  }

  /** What a store of an Elf64_Sym leaves in memory. */
  function Encode(y: Symbol): (r: seq<Byte>)
    ensures |r| == SYM_SIZE
  {
    Bytes(y.name, 4) + Bytes(y.info, 1) + Bytes(y.other, 1) + Bytes(y.shndx, 2) + Bytes(y.value, 8) + Bytes(y.size, 8)
  }

  function Decode(b: seq<Byte>): Symbol
    requires |b| == SYM_SIZE
  {
    Symbol(Value(b[..4]), Value(b[4..5]), Value(b[5..6]), Value(b[6..8]), Value(b[8..16]), Value(b[16..]))
  }

  /** The fields fit their widths. */
  predicate Representable(y: Symbol) {
    && y.name < Span(4) && y.info < Span(1) && y.other < Span(1) && y.shndx < Span(2)
    && y.value < Span(8) && y.size < Span(8)
  }

  lemma EncodedParts(y: Symbol)
    ensures var b := Encode(y);
            && b[..4] == Bytes(y.name, 4) && b[4..5] == Bytes(y.info, 1) && b[5..6] == Bytes(y.other, 1)
            && b[6..8] == Bytes(y.shndx, 2) && b[8..16] == Bytes(y.value, 8) && b[16..] == Bytes(y.size, 8)
  {
    hide Bytes;
  }

  lemma SymbolRoundTrip(y: Symbol)
    requires Representable(y)
    ensures Decode(Encode(y)) == y
  {
    hide Bytes, Value, Encode, Span;
    EncodedParts(y);
    BytesValue(y.name, 4);
    BytesValue(y.info, 1);
    BytesValue(y.other, 1);
    BytesValue(y.shndx, 2);
    BytesValue(y.value, 8);
    BytesValue(y.size, 8);
  }

  function EncodeAll(es: seq<Symbol>): (r: seq<Byte>)
    ensures |r| == |es| * SYM_SIZE
  {
    if es == [] then [] else EncodeAll(es[..|es| - 1]) + Encode(es[|es| - 1])
  }

  lemma EncodeOneMore(es: seq<Symbol>, y: Symbol)
    ensures EncodeAll(es + [y]) == EncodeAll(es) + Encode(y)
  {
    assert (es + [y])[..|es|] == es;
  }

  lemma {:induction false} EntryAt(es: seq<Symbol>, k: nat)
    requires k < |es|
    ensures EncodeAll(es)[k * SYM_SIZE..(k + 1) * SYM_SIZE] == Encode(es[k])
  {
    hide Encode;
    var front := es[..|es| - 1];
    if k < |front| {
      EntryAt(front, k);
      assert (k + 1) * SYM_SIZE <= |EncodeAll(front)|;
    }
  }

  // ----- the end of core: entries, then strings, each in the room reserved for it

  /** `head`, then `enc` in `symRoom` bytes, then `str` in `strRoom` bytes, zeros in between. */
  function Tail(head: seq<Byte>, symRoom: nat, strRoom: nat, enc: seq<Byte>, str: seq<Byte>): (r: seq<Byte>)
    requires |enc| <= symRoom && |str| <= strRoom
    ensures |r| == |head| + symRoom + strRoom && r[..|head|] == head
  {
    head + (enc + Zeros(symRoom - |enc|)) + (str + Zeros(strRoom - |str|))
  }

  function Blit(block: seq<Byte>, off: nat, bytes: seq<Byte>): (r: seq<Byte>)
    requires off + |bytes| <= |block|
    ensures |r| == |block|
  {
    block[..off] + bytes + block[off + |bytes|..]
  }

  lemma BlitInside(a: seq<Byte>, b: seq<Byte>, c: seq<Byte>, off: nat, x: seq<Byte>)
    requires |a| <= off && off + |x| <= |a| + |b|
    ensures Blit(a + b + c, off, x) == a + Blit(b, off - |a|, x) + c
  {}

  lemma BlitZeros(b: seq<Byte>, room: nat, x: seq<Byte>)
    requires |b| + |x| <= room
    ensures Blit(b + Zeros(room - |b|), |b|, x) == b + x + Zeros(room - |b| - |x|)
  {}

  lemma PutEntry(head: seq<Byte>, symRoom: nat, strRoom: nat, enc: seq<Byte>, str: seq<Byte>, x: seq<Byte>)
    requires |enc| + |x| <= symRoom && |str| <= strRoom
    ensures Blit(Tail(head, symRoom, strRoom, enc, str), |head| + |enc|, x)
            == Tail(head, symRoom, strRoom, enc + x, str)
  {
    hide Blit, Zeros;
    BlitInside(head, enc + Zeros(symRoom - |enc|), str + Zeros(strRoom - |str|), |head| + |enc|, x);
    BlitZeros(enc, symRoom, x);
  }

  /** A cut name and its NUL, put into the zeros behind the other strings. */
  lemma PutName(head: seq<Byte>, symRoom: nat, strRoom: nat, enc: seq<Byte>, str: seq<Byte>, name: seq<Byte>)
    requires |enc| <= symRoom && |str| + |name| + 1 <= strRoom
    ensures |Cut(name)| <= |name|
    ensures Blit(Tail(head, symRoom, strRoom, enc, str), |head| + symRoom + |str|, Cut(name) + [0])
            == Tail(head, symRoom, strRoom, enc, str + Slot(name))
  {
    var sym := enc + Zeros(symRoom - |enc|);
    var s := str + Zeros(strRoom - |str|);
    SlotPut(str, strRoom, name);
    hide Blit, Zeros, Cut, Slot;
    assert head + sym + s == (head + sym) + s + [];
    BlitInside(head + sym, s, [], |head| + symRoom + |str|, Cut(name) + [0]);
  }

  lemma SlotPut(str: seq<Byte>, room: nat, name: seq<Byte>)
    requires |str| + |name| + 1 <= room
    ensures Blit(str + Zeros(room - |str|), |str|, Cut(name) + [0])
            == (str + Slot(name)) + Zeros(room - |str| - |name| - 1)
  {
    var x := Cut(name) + [0];
    BlitZeros(str, room, x);
    assert x + Zeros(room - |str| - |x|) == Slot(name) + Zeros(room - |str| - |name| - 1);
    hide Blit, Zeros, Cut, Slot;
    assert str + x + Zeros(room - |str| - |x|) == str + (x + Zeros(room - |str| - |x|));
    assert str + (Slot(name) + Zeros(room - |str| - |name| - 1)) == str + Slot(name) + Zeros(room - |str| - |name| - 1);
  }

  lemma TailParts(head: seq<Byte>, symRoom: nat, strRoom: nat, enc: seq<Byte>, str: seq<Byte>, lo: nat, hi: nat)
    requires lo <= hi <= |enc| <= symRoom && |str| <= strRoom
    ensures var core := Tail(head, symRoom, strRoom, enc, str);
            && core[|head| + lo..|head| + hi] == enc[lo..hi]
            && core[|head| + symRoom..] == str + Zeros(strRoom - |str|)
  {
    hide Zeros;
  }

  /** An entry, and the name found for it among the strings, are those of symbol `y` of table `tab`. */
  predicate Reads(entry: seq<Byte>, strs: seq<Byte>, y: Symbol, tab: seq<Byte>)
    requires |entry| == SYM_SIZE
  {
    var e := Decode(entry);
    e == y.(name := e.name) && KeptAs(Name(tab, y.name), Name(strs, e.name))
  }

  lemma ReadsEntry(tab: seq<Byte>, syms: seq<Symbol>, kept: seq<nat>, k: nat, more: seq<Byte>)
    requires forall k :: 0 <= k < |kept| ==> kept[k] < |syms|
    requires k < |kept| && Representable(Entries(tab, syms, kept)[k])
    ensures Reads(Encode(Entries(tab, syms, kept)[k]), Strings(tab, syms, kept) + more, syms[kept[k]], tab)
  {
    hide Encode, Decode, Representable, Strings, Entries, Name, KeptAs;
    SymbolRoundTrip(Entries(tab, syms, kept)[k]);
    ReadBack(tab, syms, kept, k, more);
  }

  /** Where entry `k` lies at the end of core. */
  lemma TailEntry(head: seq<Byte>, symRoom: nat, strRoom: nat, es: seq<Symbol>, strs: seq<Byte>, k: nat)
    requires k < |es| && |es| * SYM_SIZE <= symRoom && |strs| <= strRoom
    ensures var core := Tail(head, symRoom, strRoom, EncodeAll(es), strs);
            var at := |head| + k * SYM_SIZE;
            && at + SYM_SIZE <= |core| && core[at..at + SYM_SIZE] == Encode(es[k])
            && core[|head| + symRoom..] == strs + Zeros(strRoom - |strs|)
  {
    assert (k + 1) * SYM_SIZE <= |es| * SYM_SIZE;
    hide Tail, EncodeAll, Encode, Zeros;
    TailParts(head, symRoom, strRoom, EncodeAll(es), strs, k * SYM_SIZE, (k + 1) * SYM_SIZE);
    EntryAt(es, k);
  }

  lemma {:induction false} EntryRepresentable(tab: seq<Byte>, syms: seq<Symbol>, kept: seq<nat>, k: nat)
    requires forall k :: 0 <= k < |kept| ==> kept[k] < |syms|
    requires k < |kept| && Representable(syms[kept[k]]) && |Strings(tab, syms, kept)| < Span(4)
    ensures Representable(Entries(tab, syms, kept)[k])
    decreases |kept|
  {
    hide Span, Name, Slot;
    if k < |kept| - 1 { EntryRepresentable(tab, syms, kept[..|kept| - 1], k); }
  }

  lemma SpanOfInt()
    ensures Span(4) == 0x1_0000_0000
  {
    assert Span(2) == 0x1_0000;
  }
}
