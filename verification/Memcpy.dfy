/**
 Byte copies within one memory, and lists of copies executed in order.
 */
module Memcpy {

  /** Copy `len` bytes from `src` to `dst`. */
  datatype Piece = Piece(src: nat, dst: nat, len: nat)

  predicate Fits<T>(m: seq<T>, p: Piece) {
    p.src + p.len <= |m| && p.dst + p.len <= |m|
  }

  predicate AllFit<T>(m: seq<T>, ps: seq<Piece>) {
    forall i :: 0 <= i < |ps| ==> Fits(m, ps[i])
  }

  function Copy<T>(m: seq<T>, p: Piece): (r: seq<T>)
    requires Fits(m, p)
    ensures |r| == |m|
  {
    m[..p.dst] + m[p.src..p.src + p.len] + m[p.dst + p.len..]
  }

  lemma CopyAt<T>(m: seq<T>, p: Piece, a: nat)
    requires Fits(m, p) && a < |m|
    ensures Copy(m, p)[a] == if p.dst <= a < p.dst + p.len then m[p.src + (a - p.dst)] else m[a]
  {}

  function Exec<T>(m: seq<T>, ps: seq<Piece>): (r: seq<T>)
    requires AllFit(m, ps)
    ensures |r| == |m|
  {
    if ps == [] then m
    else Copy(Exec(m, ps[..|ps| - 1]), ps[|ps| - 1])
  }

  /** Source and destination do not overlap, as memcpy demands. */
  predicate Disjoint(p: Piece) {
    p.src + p.len <= p.dst || p.dst + p.len <= p.src
  }

  /** `q` copies a part of what `p` copies. */
  predicate PartOf(q: Piece, p: Piece) {
    && p.src <= q.src && q.src + q.len <= p.src + p.len
    && q.dst - p.dst == q.src - p.src
  }

  /** `q` stores nothing that `p` reads or writes. */
  predicate Foreign(q: Piece, p: Piece) {
    && (q.dst + q.len <= p.src || p.src + p.len <= q.dst || q.len == 0)
    && (q.dst + q.len <= p.dst || p.dst + p.len <= q.dst || q.len == 0)
  }

  predicate Harmless(log: seq<Piece>, p: Piece) {
    forall i :: 0 <= i < |log| ==> PartOf(log[i], p) || Foreign(log[i], p)
  }

  predicate Covers(q: Piece, p: Piece, x: nat) {
    PartOf(q, p) && q.src <= p.src + x < q.src + q.len
  }

  /** Some executed piece copies byte `x` of `p`. */
  predicate CoveredBy(log: seq<Piece>, p: Piece, x: nat) {
    exists i :: 0 <= i < |log| && Covers(log[i], p, x)
  }

  lemma SourceKeptLast<T>(before: seq<T>, q: Piece, p: Piece, x: nat)
    requires Fits(before, q) && Fits(before, p) && Disjoint(p) && x < p.len
    requires PartOf(q, p) || Foreign(q, p)
    ensures Copy(before, q)[p.src + x] == before[p.src + x]
  {
    CopyAt(before, q, p.src + x);
  }

  lemma {:induction false} SourceKept<T>(m: seq<T>, log: seq<Piece>, p: Piece, x: nat)
    requires AllFit(m, log) && Fits(m, p) && Disjoint(p) && Harmless(log, p) && x < p.len
    ensures Exec(m, log)[p.src + x] == m[p.src + x]
  {
    hide PartOf, Foreign, Disjoint;
    if log != [] {
      var rest := log[..|log| - 1];
      SourceKept(m, rest, p, x);
      SourceKeptLast(Exec(m, rest), log[|log| - 1], p, x);
    }
  }

  /** The last piece executed copies byte `x` itself... */
  lemma ByteCopiedLast<T>(m: seq<T>, rest: seq<Piece>, q: Piece, p: Piece, x: nat)
    requires AllFit(m, rest) && Fits(m, q) && Fits(m, p) && Disjoint(p) && Harmless(rest, p) && x < p.len
    requires Covers(q, p, x)
    ensures Copy(Exec(m, rest), q)[p.dst + x] == m[p.src + x]
  {
    SourceKept(m, rest, p, x);
    CopyAt(Exec(m, rest), q, p.dst + x);
  }

  /** ... or leaves it alone. */
  lemma ByteKeptLast<T>(before: seq<T>, q: Piece, p: Piece, x: nat)
    requires Fits(before, q) && Fits(before, p) && x < p.len
    requires PartOf(q, p) || Foreign(q, p)
    requires !Covers(q, p, x)
    ensures Copy(before, q)[p.dst + x] == before[p.dst + x]
  {
    CopyAt(before, q, p.dst + x);
  }

  lemma {:induction false} ByteCopied<T>(m: seq<T>, log: seq<Piece>, p: Piece, x: nat)
    requires AllFit(m, log) && Fits(m, p) && Disjoint(p) && Harmless(log, p) && x < p.len
    requires CoveredBy(log, p, x)
    ensures Exec(m, log)[p.dst + x] == m[p.src + x]
  {
    hide Covers, PartOf, Foreign, Disjoint;
    var rest := log[..|log| - 1];
    var q := log[|log| - 1];
    if Covers(q, p, x) {
      ByteCopiedLast(m, rest, q, p, x);
    } else {
      var i :| 0 <= i < |log| && Covers(log[i], p, x);
      assert Covers(rest[i], p, x);
      ByteCopied(m, rest, p, x);
      ByteKeptLast(Exec(m, rest), q, p, x);
    }
  }

  /** However the pieces of a copy are interleaved with unrelated copies, once every byte has
      been covered the destination holds what the source held at the start. */
  lemma CopiedByParts<T>(m: seq<T>, log: seq<Piece>, p: Piece)
    requires AllFit(m, log) && Fits(m, p) && Disjoint(p) && Harmless(log, p)
    requires forall x: nat :: x < p.len ==> CoveredBy(log, p, x)
    ensures Exec(m, log)[p.dst..p.dst + p.len] == m[p.src..p.src + p.len]
  {
    var got := Exec(m, log)[p.dst..p.dst + p.len];
    var want := m[p.src..p.src + p.len];
    forall x: nat | x < p.len ensures got[x] == want[x] {
      ByteCopied(m, log, p, x);
    }
  }

  // ----- splitting by a transfer cap

  function Min(a: nat, b: nat): nat { if a <= b then a else b }

  /** The pieces of one prepared copy: at least one, each at most `cap` long. */
  function Split(p: Piece, cap: nat): (ps: seq<Piece>)
    requires cap > 0
    ensures ps != []
    decreases p.len
  {
    var n := Min(p.len, cap);
    var first := Piece(p.src, p.dst, n);
    if p.len - n == 0 then [first]
    else [first] + Split(Piece(p.src + n, p.dst + n, p.len - n), cap)
  }

  /** `b` continues where `a` ends, on both sides. */
  predicate Adjoins(a: Piece, b: Piece) {
    b.src == a.src + a.len && b.dst == a.dst + a.len
  }

  /** The pieces are contiguous, in order, all but the last as long as the cap allows, and make up the
      whole. */
  predicate Tiles(ps: seq<Piece>, p: Piece, cap: nat) {
    && ps != []
    && ps[0].src == p.src && ps[0].dst == p.dst
    && (forall i :: 0 <= i < |ps| ==> ps[i].len <= cap)
    && (forall i :: 0 <= i < |ps| - 1 ==> ps[i].len == cap)
    && (forall i :: 0 <= i < |ps| ==> PartOf(ps[i], p))
    && (forall i :: 0 < i < |ps| ==> Adjoins(ps[i - 1], ps[i]))
    && Adjoins(ps[|ps| - 1], Piece(p.src + p.len, p.dst + p.len, 0))
  }

  lemma TilesCons(p: Piece, n: nat, qs: seq<Piece>, cap: nat)
    requires n == cap <= p.len
    requires Tiles(qs, Piece(p.src + n, p.dst + n, p.len - n), cap)
    ensures Tiles([Piece(p.src, p.dst, n)] + qs, p, cap)
  {
    var ps := [Piece(p.src, p.dst, n)] + qs;
    var rest := Piece(p.src + n, p.dst + n, p.len - n);
    forall i | 0 <= i < |ps| ensures PartOf(ps[i], p) && ps[i].len <= cap {
      if i > 0 { assert ps[i] == qs[i - 1] && PartOf(qs[i - 1], rest); }
    }
    forall i | 0 < i < |ps| ensures Adjoins(ps[i - 1], ps[i]) {
      if i > 1 { assert Adjoins(qs[i - 2], qs[i - 1]); }
    }
  }

  lemma {:induction false} SplitTiles(p: Piece, cap: nat)
    requires cap > 0
    ensures Tiles(Split(p, cap), p, cap)
    decreases p.len
  {
    var n := Min(p.len, cap);
    if p.len - n > 0 {
      var rest := Piece(p.src + n, p.dst + n, p.len - n);
      SplitTiles(rest, cap);
      TilesCons(p, n, Split(rest, cap), cap);
    }
  }

  lemma {:induction false} SplitCovers(p: Piece, cap: nat, x: nat)
    requires cap > 0 && x < p.len
    ensures CoveredBy(Split(p, cap), p, x)
    decreases p.len
  {
    var n := Min(p.len, cap);
    var ps := Split(p, cap);
    if x < n {
      assert Covers(ps[0], p, x);
    } else {
      var rest := Piece(p.src + n, p.dst + n, p.len - n);
      SplitCovers(rest, cap, x - n);
      var qs := Split(rest, cap);
      var i :| 0 <= i < |qs| && Covers(qs[i], rest, x - n);
      assert ps[i + 1] == qs[i];
      assert Covers(ps[i + 1], p, x);
    }
  }

  lemma {:induction false} OutsideKept<T>(m: seq<T>, log: seq<Piece>, p: Piece, a: nat)
    requires AllFit(m, log) && Fits(m, p) && a < |m| && !(p.dst <= a < p.dst + p.len)
    requires forall i :: 0 <= i < |log| ==> PartOf(log[i], p)
    ensures Exec(m, log)[a] == m[a]
  {
    if log != [] {
      var rest, q := log[..|log| - 1], log[|log| - 1];
      OutsideKept(m, rest, p, a);
      assert PartOf(q, p);
      CopyAt(Exec(m, rest), q, a);
    }
  }

  lemma PartsAgree<T>(m: seq<T>, ps: seq<Piece>, p: Piece, a: nat)
    requires Fits(m, p) && Disjoint(p) && AllFit(m, ps) && a < |m|
    requires forall i :: 0 <= i < |ps| ==> PartOf(ps[i], p)
    requires p.dst <= a < p.dst + p.len ==> CoveredBy(ps, p, a - p.dst)
    ensures Exec(m, ps)[a] == Copy(m, p)[a]
  {
    hide Exec, Copy, CoveredBy, Disjoint, PartOf, Foreign;
    CopyAt(m, p, a);
    if p.dst <= a < p.dst + p.len {
      ByteCopied(m, ps, p, a - p.dst);
    } else {
      OutsideKept(m, ps, p, a);
    }
  }

  lemma PartsAreOneCopy<T>(m: seq<T>, ps: seq<Piece>, p: Piece)
    requires Fits(m, p) && Disjoint(p) && AllFit(m, ps)
    requires forall i :: 0 <= i < |ps| ==> PartOf(ps[i], p)
    requires forall x: nat :: x < p.len ==> CoveredBy(ps, p, x)
    ensures Exec(m, ps) == Copy(m, p)
  {
    hide CoveredBy, Exec, Disjoint;
    var got, want := Exec(m, ps), Copy(m, p);
    forall a: nat | a < |m| ensures got[a] == want[a] {
      PartsAgree(m, ps, p, a);
    }
  }

  lemma SplitFits<T>(m: seq<T>, p: Piece, cap: nat)
    requires cap > 0 && Fits(m, p)
    ensures AllFit(m, Split(p, cap))
  {
    SplitTiles(p, cap);
    var ps := Split(p, cap);
    forall i | 0 <= i < |ps| ensures Fits(m, ps[i]) {
      assert PartOf(ps[i], p);
    }
  }

  /** Executed on their own, the pieces are exactly one memcpy. */
  lemma SplitIsOneCopy<T>(m: seq<T>, p: Piece, cap: nat)
    requires cap > 0 && Fits(m, p) && Disjoint(p)
    ensures AllFit(m, Split(p, cap)) && Exec(m, Split(p, cap)) == Copy(m, p)
  {
    SplitFits(m, p, cap);
    SplitTiles(p, cap);
    forall x: nat | x < p.len ensures CoveredBy(Split(p, cap), p, x) {
      SplitCovers(p, cap, x);
    }
    PartsAreOneCopy(m, Split(p, cap), p);
  }

  /** `ioat_dma_unmap`: the whole copy, recovered from its length and its last piece. */
  function Unmap(last: Piece, len: nat): (p: Piece)
    requires last.len <= len && len - last.len <= last.src && len - last.len <= last.dst
  {
    var offset := len - last.len;
    Piece(last.src - offset, last.dst - offset, len)
  }

  lemma UnmapUndoesSplit(p: Piece, cap: nat)
    requires cap > 0
    ensures var ps := Split(p, cap);
            var last := ps[|ps| - 1];
            && last.len <= p.len && p.len - last.len <= last.src && p.len - last.len <= last.dst
            && Unmap(last, p.len) == p
  {
    SplitTiles(p, cap);
    var ps := Split(p, cap);
    assert PartOf(ps[|ps| - 1], p);
  }
}
