/** Images stored row by row in one array. */
module RowImage {
  import opened GridConnect

  predicate Inside(xs: nat, ys: nat, p: Point) {
    0 <= p.i < ys && 0 <= p.j < xs
  }

  /** In reading order. */
  predicate Before(p: Point, q: Point) { p.i < q.i || (p.i == q.i && p.j < q.j) }

  lemma RowsBefore(xs: nat, i: nat, n: nat)
    requires i < n
    ensures i * xs + xs <= n * xs
  {
    assert n * xs - (i + 1) * xs == (n - i - 1) * xs;
  }

  function Ix(xs: nat, ys: nat, p: Point): (x: nat)
    requires Inside(xs, ys, p)
    ensures x < xs * ys
  {
    RowsBefore(xs, p.i, ys);
    p.i * xs + p.j
  }

  lemma IxDistinct(xs: nat, ys: nat, p: Point, q: Point)
    requires Inside(xs, ys, p) && Inside(xs, ys, q) && p != q
    ensures Ix(xs, ys, p) != Ix(xs, ys, q)
  {
    if p.i < q.i { RowsBefore(xs, p.i, q.i); }
    if q.i < p.i { RowsBefore(xs, q.i, p.i); }
  }

  function Cell(s: seq<int>, xs: nat, ys: nat, p: Point): int
    requires |s| == xs * ys && Inside(xs, ys, p)
  {
    s[Ix(xs, ys, p)]
  }

  /** A write changes one cell. */
  lemma CellWritten(s: seq<int>, xs: nat, ys: nat, p: Point, v: int, q: Point)
    requires |s| == xs * ys && Inside(xs, ys, p) && Inside(xs, ys, q)
    ensures Cell(s[Ix(xs, ys, p) := v], xs, ys, q) == if q == p then v else Cell(s, xs, ys, q)
  {
    if q != p { IxDistinct(xs, ys, p, q); }
  }
}
