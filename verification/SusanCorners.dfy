/**
 Corner detection of SUSAN: the area of the mask with its early exits, the suppression of all but
 local maxima, and the drawing of the corners found.
 */
module SusanCorners {
  import opened GridConnect
  import opened RowImage

  const MAX_CORNERS: nat := 15000

  /** Where the loops go. */
  predicate Interior(xs: nat, ys: nat, c: Point) {
    5 <= c.i < ys - 5 && 5 <= c.j < xs - 5
  }

  function Plus(c: Point, d: Point): Point { Point(c.i + d.i, c.j + d.j) }

  // ----- the mask

  /** The mask without its centre, in the order in which it is read. */
  function Mask(k: nat): Point
    requires k < 36
  {
    if k < 3 then Point(-3, k - 1)
    else if k < 8 then Point(-2, k - 5)
    else if k < 15 then Point(-1, k - 11)
    else if k < 18 then Point(0, k - 18)
    else if k < 21 then Point(0, k - 17)
    else if k < 28 then Point(1, k - 24)
    else if k < 33 then Point(2, k - 30)
    else Point(3, k - 34)
  }

  /** Where the mask's row `i` ends, left and right. */
  function Reach(i: int): int
  {
    if i == 3 || i == -3 then 1 else if i == 2 || i == -2 then 2 else if i == 1 || i == -1 || i == 0 then 3 else -1
  }

  lemma DiscRows(d: Point)
    ensures d.i * d.i + d.j * d.j <= 10 <==> -Reach(d.i) <= d.j <= Reach(d.i)
  {
    if d.i >= 4 { assert d.i * d.i >= 16; assert d.j * d.j >= 0; }
    if d.i <= -4 { assert d.i * d.i >= 16; assert d.j * d.j >= 0; }
    if d.j >= 4 { assert d.j * d.j >= 16; assert d.i * d.i >= 0; }
    if d.j <= -4 { assert d.j * d.j >= 16; assert d.i * d.i >= 0; }
  }

  /** Position in the mask. */
  function Rank(d: Point): int {
    match d.i
    case -3 => d.j + 1
    case -2 => d.j + 5
    case -1 => d.j + 11
    case 0 => if d.j < 0 then d.j + 18 else d.j + 17
    case 1 => d.j + 24
    case 2 => d.j + 30
    case _ => d.j + 34
  }

  /** The mask is the disc of squared radius 10 without its centre, each point once. */
  lemma MaskIsDisc(d: Point, k: nat)
    requires k < 36
    ensures Mask(k) == d ==> 0 < d.i * d.i + d.j * d.j <= 10 && k == Rank(d)
    ensures 0 < d.i * d.i + d.j * d.j <= 10 ==> 0 <= Rank(d) < 36 && Mask(Rank(d)) == d
  {
    DiscRows(d);
    assert d.i * d.i + d.j * d.j > 0 <==> d != Point(0, 0) by {
      assert d.i * d.i >= 0 && d.j * d.j >= 0;
      if d.i != 0 { assert d.i * d.i > 0; }
      if d.j != 0 { assert d.j * d.j > 0; }
    }
  }

  /** Similarity of the first `n` mask points to the centre, by the brightness table. */
  function Sum(s: seq<int>, xs: nat, ys: nat, bp: int -> nat, c: Point, n: nat): nat
    requires |s| == xs * ys && Interior(xs, ys, c) && n <= 36
  {
    if n == 0 then 0
    else Sum(s, xs, ys, bp, c, n - 1) + bp(Cell(s, xs, ys, c) - Cell(s, xs, ys, Plus(c, Mask(n - 1))))
  }

  /** The area of the mask; the centre counts 100. */
  function Area(s: seq<int>, xs: nat, ys: nat, bp: int -> nat, c: Point): nat
    requires |s| == xs * ys && Interior(xs, ys, c)
  {
    100 + Sum(s, xs, ys, bp, c, 36)
  }

  /** The similarity to the centre of `n` pixels of the row `i` below it, from column `lo` on. */
  function Row(s: seq<int>, xs: nat, ys: nat, bp: int -> nat, c: Point, i: int, lo: int, n: nat): nat
    requires |s| == xs * ys && Interior(xs, ys, c) && -3 <= i <= 3 && -3 <= lo && lo + n <= 4
  {
    if n == 0 then 0
    else Row(s, xs, ys, bp, c, i, lo, n - 1) + bp(Cell(s, xs, ys, c) - Cell(s, xs, ys, Point(c.i + i, c.j + lo + n - 1)))
  }

  /** The mask points from number `a` on are `n` of the row `i`, from column `lo` on. */
  predicate MaskRow(a: nat, i: int, lo: int, n: nat)
    requires a + n <= 36
  {
    forall k :: a <= k < a + n ==> Mask(k) == Point(i, lo + (k - a))
  }

  lemma MaskRows()
    ensures MaskRow(0, -3, -1, 3) && MaskRow(3, -2, -2, 5) && MaskRow(8, -1, -3, 7) && MaskRow(15, 0, -3, 3)
    ensures MaskRow(18, 0, 1, 3) && MaskRow(21, 1, -3, 7) && MaskRow(28, 2, -2, 5) && MaskRow(33, 3, -1, 3)
  {}

  lemma {:induction false} RowOfSum(s: seq<int>, xs: nat, ys: nat, bp: int -> nat, c: Point, a: nat, i: int, lo: int, n: nat)
    requires |s| == xs * ys && Interior(xs, ys, c) && a + n <= 36
    requires -3 <= i <= 3 && -3 <= lo && lo + n <= 4
    requires MaskRow(a, i, lo, n)
    ensures Sum(s, xs, ys, bp, c, a + n) == Sum(s, xs, ys, bp, c, a) + Row(s, xs, ys, bp, c, i, lo, n)
  {
    hide Ix, Mask;
    if n > 0 {
      RowOfSum(s, xs, ys, bp, c, a, i, lo, n - 1);
      assert Mask(a + (n - 1)) == Point(i, lo + (n - 1));
    }
  }

  /** The area is 100 for the centre and the similarity of each pixel of the seven rows of the disc. */
  lemma AreaRows(s: seq<int>, xs: nat, ys: nat, bp: int -> nat, c: Point)
    requires |s| == xs * ys && Interior(xs, ys, c)
    ensures Area(s, xs, ys, bp, c) == 100
              + Row(s, xs, ys, bp, c, -3, -1, 3) + Row(s, xs, ys, bp, c, -2, -2, 5) + Row(s, xs, ys, bp, c, -1, -3, 7)
              + Row(s, xs, ys, bp, c, 0, -3, 3) + Row(s, xs, ys, bp, c, 0, 1, 3)
              + Row(s, xs, ys, bp, c, 1, -3, 7) + Row(s, xs, ys, bp, c, 2, -2, 5) + Row(s, xs, ys, bp, c, 3, -1, 3)
  {
    hide Row, Ix, Sum, Mask, MaskRow;
    MaskRows();
    RowOfSum(s, xs, ys, bp, c, 0, -3, -1, 3);
    RowOfSum(s, xs, ys, bp, c, 3, -2, -2, 5);
    RowOfSum(s, xs, ys, bp, c, 8, -1, -3, 7);
    RowOfSum(s, xs, ys, bp, c, 15, 0, -3, 3);
    RowOfSum(s, xs, ys, bp, c, 18, 0, 1, 3);
    RowOfSum(s, xs, ys, bp, c, 21, 1, -3, 7);
    RowOfSum(s, xs, ys, bp, c, 28, 2, -2, 5);
    RowOfSum(s, xs, ys, bp, c, 33, 3, -1, 3);
    NoSum(s, xs, ys, bp, c);
  }

  lemma NoSum(s: seq<int>, xs: nat, ys: nat, bp: int -> nat, c: Point)
    requires |s| == xs * ys && Interior(xs, ys, c)
    ensures Sum(s, xs, ys, bp, c, 0) == 0
  {}

  lemma {:induction false} SumGrows(s: seq<int>, xs: nat, ys: nat, bp: int -> nat, c: Point, m: nat, n: nat)
    requires |s| == xs * ys && Interior(xs, ys, c) && m <= n <= 36
    ensures Sum(s, xs, ys, bp, c, m) <= Sum(s, xs, ys, bp, c, n)
    decreases n
  {
    if m < n { SumGrows(s, xs, ys, bp, c, m, n - 1); }
  }

  /** How far the pointer moves from mask point `k` to the next. */
  function Advance(xs: nat, k: nat): int {
    if k == 2 || k == 32 then xs - 3 else if k == 7 || k == 27 then xs - 5
    else if k == 14 || k == 20 then xs - 6 else if k == 17 then 2 else 1
  }

  lemma AdvanceOk(xs: nat, ys: nat, c: Point, k: nat)
    requires Interior(xs, ys, c) && k < 35
    ensures Inside(xs, ys, Plus(c, Mask(k))) && Inside(xs, ys, Plus(c, Mask(k + 1)))
    ensures Ix(xs, ys, Plus(c, Mask(k + 1))) == Ix(xs, ys, Plus(c, Mask(k))) + Advance(xs, k)
  {
    var p, q := Plus(c, Mask(k)), Plus(c, Mask(k + 1));
    if q.i == p.i + 1 { assert q.i * xs == p.i * xs + xs; }
  }

  lemma MaskInside(xs: nat, ys: nat, c: Point, k: nat)
    requires Interior(xs, ys, c) && k < 36
    ensures Inside(xs, ys, c) && Inside(xs, ys, Plus(c, Mask(k)))
  {}

  /** The sum with its nested early exits: a pixel passes if and only if the whole area is small. */
  method Measure(img: array<int>, xs: nat, ys: nat, bp: int -> nat, c: Point, maxNo: int) returns (n: nat, ok: bool)
    requires img.Length == xs * ys && Interior(xs, ys, c)
    ensures ok <==> Area(img[..], xs, ys, bp, c) < maxNo
    ensures ok ==> n == Area(img[..], xs, ys, bp, c)
  {
    MaskInside(xs, ys, c, 0);
    ghost var s := img[..];
    var p := Ix(xs, ys, Point(c.i - 3, c.j - 1));
    n := 100;
    hide Ix, Mask, Inside;
    assert Plus(c, Mask(0)) == Point(c.i - 3, c.j - 1) by { MaskStart(); }
    for k := 0 to 36
      invariant n == 100 + Sum(s, xs, ys, bp, c, k)
      invariant k < 36 ==> Inside(xs, ys, Plus(c, Mask(k))) && p == Ix(xs, ys, Plus(c, Mask(k)))
      invariant k >= 18 ==> n < maxNo
    {
      n := n + bp(img[Ix(xs, ys, c)] - img[p]);
      if k + 1 >= 18 && n >= maxNo {
        SumGrows(s, xs, ys, bp, c, k + 1, 36);
        return n, false;
      }
      if k < 35 {
        AdvanceOk(xs, ys, c, k);
        p := p + Advance(xs, k);
      }
    }
    ok := true;
  }

  lemma MaskStart()
    ensures Mask(0) == Point(-3, -1)
  {}

  /** What the response image holds; `strong` are the tests of gravity and direction. */
  function Response(s: seq<int>, xs: nat, ys: nat, bp: int -> nat, maxNo: int, strong: (Point, nat) -> bool, c: Point): int
    requires |s| == xs * ys
  {
    if Interior(xs, ys, c) && Area(s, xs, ys, bp, c) < maxNo && strong(c, Area(s, xs, ys, bp, c))
    then maxNo - Area(s, xs, ys, bp, c)
    else 0
  }

  /** Of two pixels that pass, the one with the smaller area has the larger response; the others have
      none. */
  lemma SmallerAreaStronger(s: seq<int>, xs: nat, ys: nat, bp: int -> nat, maxNo: int, strong: (Point, nat) -> bool,
                            p: Point, q: Point)
    requires |s| == xs * ys && 5 <= p.i < ys - 5 && 5 <= p.j < xs - 5 && 5 <= q.i < ys - 5 && 5 <= q.j < xs - 5
    ensures Response(s, xs, ys, bp, maxNo, strong, p) > 0 <==>
            Area(s, xs, ys, bp, p) < maxNo && strong(p, Area(s, xs, ys, bp, p))
    ensures Response(s, xs, ys, bp, maxNo, strong, p) > 0 && Response(s, xs, ys, bp, maxNo, strong, q) > 0 ==>
            (Response(s, xs, ys, bp, maxNo, strong, p) > Response(s, xs, ys, bp, maxNo, strong, q) <==>
             Area(s, xs, ys, bp, p) < Area(s, xs, ys, bp, q))
  {
    hide Area;
  }

  /** The response image up to `end`, in reading order; still 0 from there on. */
  ghost predicate Responded(s: seq<int>, xs: nat, ys: nat, bp: int -> nat, maxNo: int, strong: (Point, nat) -> bool,
                            r: seq<int>, end: Point)
    requires |s| == |r| == xs * ys
  {
    forall p :: Inside(xs, ys, p) ==>
      Cell(r, xs, ys, p) == if Before(p, end) then Response(s, xs, ys, bp, maxNo, strong, p) else 0
  }

  lemma RespondedNext(s: seq<int>, xs: nat, ys: nat, bp: int -> nat, maxNo: int, strong: (Point, nat) -> bool,
                      r: seq<int>, c: Point)
    requires |s| == |r| == xs * ys && Inside(xs, ys, c)
    requires Responded(s, xs, ys, bp, maxNo, strong, r, c)
    ensures var v := Response(s, xs, ys, bp, maxNo, strong, c);
            Responded(s, xs, ys, bp, maxNo, strong, r[Ix(xs, ys, c) := v], Point(c.i, c.j + 1))
  {
    hide Response, Ix;
    var v := Response(s, xs, ys, bp, maxNo, strong, c);
    forall p | Inside(xs, ys, p)
      ensures Cell(r[Ix(xs, ys, c) := v], xs, ys, p) ==
              if Before(p, Point(c.i, c.j + 1)) then Response(s, xs, ys, bp, maxNo, strong, p) else 0
    {
      CellWritten(r, xs, ys, c, v, p);
    }
  }

  lemma RespondedSkip(s: seq<int>, xs: nat, ys: nat, bp: int -> nat, maxNo: int, strong: (Point, nat) -> bool,
                      r: seq<int>, c: Point, end: Point)
    requires |s| == |r| == xs * ys && Responded(s, xs, ys, bp, maxNo, strong, r, c)
    requires forall p :: Interior(xs, ys, p) ==> (Before(p, c) <==> Before(p, end))
    ensures Responded(s, xs, ys, bp, maxNo, strong, r, end)
  {
    hide Ix, Area;
  }

  /** The first half of susan_corners: the response image, cleared and then filled. */
  method Respond(img: array<int>, r: array<int>, xs: nat, ys: nat, bp: int -> nat, maxNo: int,
                 strong: (Point, nat) -> bool)
    requires img != r && img.Length == r.Length == xs * ys
    modifies r
    ensures forall p :: Inside(xs, ys, p) ==>
              Cell(r[..], xs, ys, p) == Response(img[..], xs, ys, bp, maxNo, strong, p)
  {
    for k := 0 to r.Length
      invariant forall m :: 0 <= m < k ==> r[m] == 0
    {
      r[k] := 0;
    }
    hide Area, Ix;
    var i := 5;
    assert Responded(img[..], xs, ys, bp, maxNo, strong, r[..], Point(-1, 0));
    RespondedSkip(img[..], xs, ys, bp, maxNo, strong, r[..], Point(-1, 0), Point(5, 5));
    hide Responded, Response;
    while i < ys - 5
      invariant i >= 5 && Responded(img[..], xs, ys, bp, maxNo, strong, r[..], Point(i, 5))
    {
      var j := 5;
      while j < xs - 5
        invariant j >= 5 && Responded(img[..], xs, ys, bp, maxNo, strong, r[..], Point(i, j))
      {
        RespondAt(img, r, xs, ys, bp, maxNo, strong, Point(i, j));
        j := j + 1;
      }
      RespondedSkip(img[..], xs, ys, bp, maxNo, strong, r[..], Point(i, j), Point(i + 1, 5));
      i := i + 1;
    }
    RespondedSkip(img[..], xs, ys, bp, maxNo, strong, r[..], Point(i, 5), Point(ys, 0));
    RespondedEnd(img[..], xs, ys, bp, maxNo, strong, r[..]);
  }

  lemma RespondedEnd(s: seq<int>, xs: nat, ys: nat, bp: int -> nat, maxNo: int, strong: (Point, nat) -> bool, r: seq<int>)
    requires |s| == |r| == xs * ys && Responded(s, xs, ys, bp, maxNo, strong, r, Point(ys, 0))
    ensures forall p :: Inside(xs, ys, p) ==> Cell(r, xs, ys, p) == Response(s, xs, ys, bp, maxNo, strong, p)
  {
    hide Response, Ix;
  }

  method RespondAt(img: array<int>, r: array<int>, xs: nat, ys: nat, bp: int -> nat, maxNo: int,
                   strong: (Point, nat) -> bool, c: Point)
    requires img != r && img.Length == r.Length == xs * ys && Interior(xs, ys, c)
    requires Responded(img[..], xs, ys, bp, maxNo, strong, r[..], c)
    modifies r
    ensures Responded(img[..], xs, ys, bp, maxNo, strong, r[..], Point(c.i, c.j + 1))
  {
    hide Area, Ix;
    assert Inside(xs, ys, c);
    RespondedNext(img[..], xs, ys, bp, maxNo, strong, r[..], c);
    assert r[..][Ix(xs, ys, c)] == Cell(r[..], xs, ys, c) == 0;
    hide Responded;
    var n, ok := Measure(img, xs, ys, bp, c, maxNo);
    if ok && strong(c, n) {
      r[Ix(xs, ys, c)] := maxNo - n;
    } else {
      assert r[..][Ix(xs, ys, c) := 0] == r[..];
    }
  }

  // ----- local maxima

  predicate Close(p: Point, q: Point) { -3 <= p.i - q.i <= 3 && -3 <= p.j - q.j <= 3 }

  predicate Beats(r: seq<int>, xs: nat, ys: nat, c: Point, q: Point)
    requires |r| == xs * ys && Inside(xs, ys, c) && Inside(xs, ys, q)
  {
    if Before(q, c) then Cell(r, xs, ys, c) > Cell(r, xs, ys, q)
    else if q == c then true
    else Cell(r, xs, ys, c) >= Cell(r, xs, ys, q)
  }

  predicate IsCorner(r: seq<int>, xs: nat, ys: nat, c: Point)
    requires |r| == xs * ys
  {
    && Interior(xs, ys, c) && Cell(r, xs, ys, c) > 0
    && forall i, j :: -3 <= i <= 3 && -3 <= j <= 3 ==> Beats(r, xs, ys, c, Plus(c, Point(i, j)))
  }

  lemma CornerBeats(r: seq<int>, xs: nat, ys: nat, p: Point, q: Point)
    requires |r| == xs * ys && IsCorner(r, xs, ys, p) && Close(p, q)
    ensures Inside(xs, ys, q) && Beats(r, xs, ys, p, q)
  {
    assert q == Plus(p, Point(q.i - p.i, q.j - p.j));
  }

  /** Two corners are at least four rows or four columns apart. */
  lemma CornersApart(r: seq<int>, xs: nat, ys: nat, p: Point, q: Point)
    requires |r| == xs * ys && IsCorner(r, xs, ys, p) && IsCorner(r, xs, ys, q) && p != q
    ensures !Close(p, q)
  {
    hide IsCorner;
    if Close(p, q) {
      CornerBeats(r, xs, ys, p, q);
      CornerBeats(r, xs, ys, q, p);
      assert false;
    }
  }

  /** The first of the strongest pixels is a corner, if it has a response at all. */
  lemma StrongestIsCorner(r: seq<int>, xs: nat, ys: nat, c: Point)
    requires |r| == xs * ys && 5 <= c.i < ys - 5 && 5 <= c.j < xs - 5 && Cell(r, xs, ys, c) > 0
    requires forall q :: Inside(xs, ys, q) ==> Cell(r, xs, ys, q) <= Cell(r, xs, ys, c)
    requires forall q :: Inside(xs, ys, q) && Before(q, c) ==> Cell(r, xs, ys, q) < Cell(r, xs, ys, c)
    ensures IsCorner(r, xs, ys, c)
  {
    hide Ix;
  }

  /** The comparisons with the 48 cells around. */
  method IsPeak(r: array<int>, xs: nat, ys: nat, c: Point) returns (yes: bool)
    requires r.Length == xs * ys && Interior(xs, ys, c)
    ensures yes <==> forall i, j :: -3 <= i <= 3 && -3 <= j <= 3 ==> Beats(r[..], xs, ys, c, Plus(c, Point(i, j)))
  {
    hide Ix;
    for i := -3 to 4
      invariant forall i', j :: -3 <= i' < i && -3 <= j <= 3 ==> Beats(r[..], xs, ys, c, Plus(c, Point(i', j)))
    {
      for j := -3 to 4
        invariant forall j' :: -3 <= j' < j ==> Beats(r[..], xs, ys, c, Plus(c, Point(i, j')))
      {
        var x, y := r[Ix(xs, ys, c)], r[Ix(xs, ys, Plus(c, Point(i, j)))];
        if !(if i < 0 || (i == 0 && j < 0) then x > y else (i == 0 && j == 0) || x >= y) {
          assert !Beats(r[..], xs, ys, c, Plus(c, Point(i, j)));
          return false;
        }
      }
    }
    yes := true;
  }

  /** `list` holds the corners before `end`, in reading order. */
  ghost predicate Listed(r: seq<int>, xs: nat, ys: nat, list: seq<Point>, end: Point)
    requires |r| == xs * ys
  {
    && (forall k :: 0 <= k < |list| ==> IsCorner(r, xs, ys, list[k]) && Before(list[k], end))
    && (forall k :: 0 < k < |list| ==> Before(list[k - 1], list[k]))
    && (forall p :: IsCorner(r, xs, ys, p) && Before(p, end) ==> p in list)
  }

  lemma ListNext(r: seq<int>, xs: nat, ys: nat, list: seq<Point>, c: Point, end: Point)
    requires |r| == xs * ys && Listed(r, xs, ys, list, c) && Before(c, end)
    requires forall p :: IsCorner(r, xs, ys, p) && Before(p, end) ==> Before(p, c) || p == c
    ensures Listed(r, xs, ys, if IsCorner(r, xs, ys, c) then list + [c] else list, end)
  {
    hide IsCorner;
    if IsCorner(r, xs, ys, c) {
      assert c in list + [c];
    }
  }

  lemma ListSkip(r: seq<int>, xs: nat, ys: nat, list: seq<Point>, c: Point, end: Point)
    requires |r| == xs * ys && Listed(r, xs, ys, list, c) && (Before(c, end) || c == end)
    requires forall p :: IsCorner(r, xs, ys, p) && Before(p, end) ==> Before(p, c)
    ensures Listed(r, xs, ys, list, end)
  {
    hide IsCorner;
  }

  lemma RowScanned(r: seq<int>, xs: nat, ys: nat, list: seq<Point>, i: int, j: int)
    requires |r| == xs * ys && Listed(r, xs, ys, list, Point(i, j)) && j >= xs - 5 && j >= 5
    ensures Listed(r, xs, ys, list, Point(i + 1, 5))
  {
    forall p | IsCorner(r, xs, ys, p) && Before(p, Point(i + 1, 5)) ensures Before(p, Point(i, j)) {}
    ListSkip(r, xs, ys, list, Point(i, j), Point(i + 1, 5));
  }

  lemma NoneYet(r: seq<int>, xs: nat, ys: nat)
    requires |r| == xs * ys
    ensures Listed(r, xs, ys, [], Point(5, 5))
  {}

  lemma AllListed(r: seq<int>, xs: nat, ys: nat, list: seq<Point>, i: int)
    requires |r| == xs * ys && Listed(r, xs, ys, list, Point(i, 5)) && i >= ys - 5
    ensures forall p :: IsCorner(r, xs, ys, p) ==> p in list
  {
    forall p | IsCorner(r, xs, ys, p) ensures Before(p, Point(i, 5)) {}
  }

  /**
   The search for local maxima.  Either `list` holds all corners in reading order, or there are at
   least MAX_CORNERS of them and the program gives up.
   */
  method FindCorners(r: array<int>, xs: nat, ys: nat) returns (list: seq<Point>, ok: bool)
    requires r.Length == xs * ys
    ensures forall k :: 0 <= k < |list| ==> IsCorner(r[..], xs, ys, list[k])
    ensures forall k :: 0 < k < |list| ==> Before(list[k - 1], list[k])
    ensures ok ==> |list| < MAX_CORNERS && forall p :: IsCorner(r[..], xs, ys, p) ==> p in list
    ensures !ok ==> |list| == MAX_CORNERS
  {
    list := [];
    NoneYet(r[..], xs, ys);
    var i := 5;
    while i < ys - 5
      invariant i >= 5 && |list| < MAX_CORNERS && Listed(r[..], xs, ys, list, Point(i, 5))
    {
      var j := 5;
      while j < xs - 5
        invariant j >= 5 && |list| < MAX_CORNERS && Listed(r[..], xs, ys, list, Point(i, j))
      {
        var c := Point(i, j);
        var peak := AtCorner(r, xs, ys, c);
        hide IsCorner;
        ListNext(r[..], xs, ys, list, c, Point(i, j + 1));
        if peak {
          list := list + [c];
          if |list| == MAX_CORNERS { return list, false; }
        }
        j := j + 1;
      }
      RowScanned(r[..], xs, ys, list, i, j);
      i := i + 1;
    }
    AllListed(r[..], xs, ys, list, i);
    ok := true;
  }

  method AtCorner(r: array<int>, xs: nat, ys: nat, c: Point) returns (yes: bool)
    requires r.Length == xs * ys && Interior(xs, ys, c)
    ensures yes <==> IsCorner(r[..], xs, ys, c)
  {
    yes := false;
    if r[Ix(xs, ys, c)] > 0 { yes := IsPeak(r, xs, ys, c); }
  }

  // ----- drawing

  /** Values stored around and at one corner. */
  function Ink(c: Point, p: Point, was: int): int {
    if p == c then 0 else if Adjacent(p, c) then 255 else was
  }

  /** What a list of corners leaves of a pixel. */
  function Drawn(list: seq<Point>, p: Point, was: int): int {
    if list == [] then was else Ink(list[|list| - 1], p, Drawn(list[..|list| - 1], p, was))
  }

  predicate Apart(list: seq<Point>) {
    forall k, m :: 0 <= k < m < |list| ==> !Close(list[k], list[m])
  }

  /** A list in reading order names no corner twice. */
  lemma {:induction false} OrderedApart(r: seq<int>, xs: nat, ys: nat, list: seq<Point>)
    requires |r| == xs * ys
    requires forall k :: 0 <= k < |list| ==> IsCorner(r, xs, ys, list[k])
    requires forall k :: 0 < k < |list| ==> Before(list[k - 1], list[k])
    ensures Apart(list)
  {
    hide IsCorner;
    forall k, m | 0 <= k < m < |list| ensures !Close(list[k], list[m]) {
      Ordered(list, k, m);
      CornersApart(r, xs, ys, list[k], list[m]);
    }
  }

  lemma {:induction false} Ordered(list: seq<Point>, k: nat, m: nat)
    requires forall k :: 0 < k < |list| ==> Before(list[k - 1], list[k])
    requires k < m < |list|
    ensures Before(list[k], list[m])
    decreases m
  {
    assert Before(list[m - 1], list[m]);
    if k < m - 1 { Ordered(list, k, m - 1); }
  }

  /** Every corner ends up black with eight white neighbours, and nothing else changes. */
  lemma {:induction false} CornersVisible(list: seq<Point>, p: Point, was: int)
    requires Apart(list)
    ensures p in list ==> Drawn(list, p, was) == 0
    ensures forall k :: 0 <= k < |list| && Adjacent(p, list[k]) ==> Drawn(list, p, was) == 255
    ensures p !in list && (forall k :: 0 <= k < |list| ==> !Adjacent(p, list[k])) ==> Drawn(list, p, was) == was
  {
    if list != [] {
      var n := |list| - 1;
      CornersVisible(list[..n], p, was);
      forall k | 0 <= k < n ensures !Close(list[k], list[n]) {}
    }
  }

  /** Three rows of three stores around `c`, as corner_draw makes them. */
  method DrawOne(img: array<int>, xs: nat, ys: nat, c: Point)
    requires img.Length == xs * ys && Interior(xs, ys, c)
    modifies img
    ensures forall p :: Inside(xs, ys, p) ==>
              Cell(img[..], xs, ys, p) == Ink(c, p, Cell(old(img[..]), xs, ys, p))
  {
    hide Ix;
    for k := 0 to 9
      invariant forall p :: Inside(xs, ys, p) ==>
        Cell(img[..], xs, ys, p) == InkUpTo(c, p, k, Cell(old(img[..]), xs, ys, p))
    {
      var q := Point(c.i + k / 3 - 1, c.j + k % 3 - 1);
      ghost var s := img[..];
      var v := if k == 4 then 0 else 255;
      img[Ix(xs, ys, q)] := v;
      assert img[..] == s[Ix(xs, ys, q) := v];
      forall p | Inside(xs, ys, p)
        ensures Cell(img[..], xs, ys, p) == InkUpTo(c, p, k + 1, Cell(old(img[..]), xs, ys, p))
      {
        CellWritten(s, xs, ys, q, v, p);
      }
    }
  }

  /** After the first `k` of the nine stores. */
  function InkUpTo(c: Point, p: Point, k: nat, was: int): int {
    var t := 3 * (p.i - c.i + 1) + (p.j - c.j + 1);
    if (p == c || Adjacent(p, c)) && t < k then (if p == c then 0 else 255) else was
  }

  /** corner_draw, drawing mode 0. */
  method CornerDraw(img: array<int>, xs: nat, ys: nat, list: seq<Point>)
    requires img.Length == xs * ys && forall k :: 0 <= k < |list| ==> Interior(xs, ys, list[k])
    modifies img
    ensures forall p :: Inside(xs, ys, p) ==>
              Cell(img[..], xs, ys, p) == Drawn(list, p, Cell(old(img[..]), xs, ys, p))
  {
    hide Ix, Ink;
    for n := 0 to |list|
      invariant forall p :: Inside(xs, ys, p) ==>
        Cell(img[..], xs, ys, p) == Drawn(list[..n], p, Cell(old(img[..]), xs, ys, p))
    {
      DrawOne(img, xs, ys, list[n]);
      assert list[..n + 1][..n] == list[..n];
    }
    assert list[..|list|] == list;
  }

  /** From the response image to the picture. */
  method MarkCorners(img: array<int>, r: array<int>, xs: nat, ys: nat) returns (list: seq<Point>, ok: bool)
    requires img != r && img.Length == r.Length == xs * ys
    modifies img
    ensures ok ==> forall p :: IsCorner(r[..], xs, ys, p) <==> p in list
    ensures ok ==> forall p :: Inside(xs, ys, p) && IsCorner(r[..], xs, ys, p) ==> Cell(img[..], xs, ys, p) == 0
    ensures ok ==> forall c, p :: Inside(xs, ys, p) && IsCorner(r[..], xs, ys, c) && Adjacent(p, c) ==>
                     Cell(img[..], xs, ys, p) == 255
    ensures !ok ==> |list| == MAX_CORNERS && img[..] == old(img[..])
  {
    list, ok := FindCorners(r, xs, ys);
    if ok {
      OrderedApart(r[..], xs, ys, list);
      CornerDraw(img, xs, ys, list);
      hide Drawn, Ix, Adjacent, Apart;
      forall p | Inside(xs, ys, p)
        ensures p in list ==> Cell(img[..], xs, ys, p) == 0
        ensures forall k :: 0 <= k < |list| && Adjacent(p, list[k]) ==> Cell(img[..], xs, ys, p) == 255
      {
        CornersVisible(list, p, Cell(old(img[..]), xs, ys, p));
      }
    }
  }
}
