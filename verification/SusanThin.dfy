/**
 Edge thinning of SUSAN: one execution of the loop body of susan_thin at a time, on the image `mid`
 in which values below 8 are edge points.
 */
module SusanThin {
  import opened GridConnect
  import opened RowImage

  /** Where the loops go: four rows and columns are left out on each side. */
  predicate Interior(xs: nat, ys: nat, c: Point) {
    4 <= c.i < ys - 4 && 4 <= c.j < xs - 4
  }

  predicate Lit(s: seq<int>, xs: nat, ys: nat, p: Point)
    requires |s| == xs * ys && Inside(xs, ys, p)
  {
    Cell(s, xs, ys, p) < 8
  }

  ghost function Edges(s: seq<int>, xs: nat, ys: nat): iset<Point>
    requires |s| == xs * ys
  {
    iset p | Inside(xs, ys, p) && Lit(s, xs, ys, p)
  }

  lemma Written(s: seq<int>, xs: nat, ys: nat, p: Point, v: int)
    requires |s| == xs * ys && Inside(xs, ys, p)
    ensures var t := s[Ix(xs, ys, p) := v];
            Edges(t, xs, ys) == if v < 8 then Edges(s, xs, ys) + iset{p} else Edges(s, xs, ys) - iset{p}
  {
    var t := s[Ix(xs, ys, p) := v];
    hide Ix;
    forall q | Inside(xs, ys, q) ensures Cell(t, xs, ys, q) == if q == p then v else Cell(s, xs, ys, q) {
      CellWritten(s, xs, ys, p, v, q);
    }
  }

  lemma Near(xs: nat, ys: nat, c: Point)
    requires Interior(xs, ys, c)
    ensures Inside(xs, ys, c) && forall k :: 0 <= k < 8 ==> Inside(xs, ys, Around(c, k))
  {}

  /** Which of the eight neighbours are edge points. */
  function Ring(s: seq<int>, xs: nat, ys: nat, c: Point): (b: seq<bool>)
    requires |s| == xs * ys && Interior(xs, ys, c)
    ensures |b| == 8
  {
    Near(xs, ys, c);
    [Lit(s, xs, ys, Around(c, 0)), Lit(s, xs, ys, Around(c, 1)), Lit(s, xs, ys, Around(c, 2)),
     Lit(s, xs, ys, Around(c, 3)), Lit(s, xs, ys, Around(c, 4)), Lit(s, xs, ys, Around(c, 5)),
     Lit(s, xs, ys, Around(c, 6)), Lit(s, xs, ys, Around(c, 7))]
  }

  lemma RingBits(s: seq<int>, xs: nat, ys: nat, c: Point)
    requires |s| == xs * ys && Interior(xs, ys, c)
    ensures Ring(s, xs, ys, c) == Bits(Edges(s, xs, ys), c)
  {
    hide Around, Lit, Inside, Interior;
    Near(xs, ys, c);
  }

  // ----- what is done at a point

  datatype Action =
    | Keep
    | Delete(back: bool)             // `back`: and go back in the image
    | Extend(t: nat, value: int)     // set neighbour `t`, in reading order
    | Move(k: nat)                   // to neighbour `k`, around the ring

  /** The place on the ring of a cell of the 3x3 square in reading order. */
  function RingOf(t: nat): (k: nat)
    requires t < 9
    ensures k < 8
  {
    if t < 3 then t else if t == 3 || t == 4 then 7 else if t == 5 then 3 else 12 - t
  }

  function Square(c: Point, t: nat): (p: Point)
    requires t < 9
    ensures t != 4 ==> p == Around(c, RingOf(t))
  {
    Point(c.i + t / 3 - 1, c.j + t % 3 - 1)
  }

  /** 4 opposite the neighbour that is there, then 3 and 2, nothing beside it. */
  function Weight(present: nat, k: nat): (w: nat)
    requires present < 8 && k < 8
  {
    var d := if present <= k then k - present else present - k;
    match if d <= 4 then d else 8 - d
    case 4 => 4
    case 3 => 3
    case 2 => 2
    case _ => 0
  }

  function Weighted(r: seq<int>, xs: nat, ys: nat, c: Point, present: nat, t: nat): int
    requires |r| == xs * ys && Interior(xs, ys, c) && present < 8 && t < 9
  {
    if t == 4 then 0 else
    Near(xs, ys, c);
    Cell(r, xs, ys, Around(c, RingOf(t))) * Weight(present, RingOf(t))
  }

  function Weights(r: seq<int>, xs: nat, ys: nat, c: Point, present: nat): (l: seq<int>)
    requires |r| == xs * ys && Interior(xs, ys, c) && present < 8
    ensures |l| == 9 && l[4] == 0
  {
    seq(9, t requires 0 <= t < 9 => Weighted(r, xs, ys, c, present, t))
  }

  /** The first of the highest positive values among the first `n`, if any, and that value. */
  function Best(l: seq<int>, n: nat): (r: (nat, int))
    requires n <= |l|
    ensures r.1 >= 0 && (forall t :: 0 <= t < n ==> l[t] <= r.1)
    ensures r.1 > 0 ==> r.0 < n && l[r.0] == r.1 && forall t :: 0 <= t < r.0 ==> l[t] < r.1
  {
    if n == 0 then (0, 0)
    else
      var (k, m) := Best(l, n - 1);
      if l[n - 1] > m then (n - 1, l[n - 1]) else (k, m)
  }

  /** The neighbour of a single-neighbour point. */
  function Only(b: seq<bool>): (k: nat)
    requires |b| == 8
    ensures k < 8 && (Count(b) == 1 ==> b[k])
  {
    if b[0] then 0 else if b[1] then 1 else if b[2] then 2 else if b[7] then 7
    else if b[3] then 3 else if b[6] then 6 else if b[5] then 5 else 4
  }

  /** Two corners with a side between them: that side. */
  function Between(b: seq<bool>): (k: nat)
    requires |b| == 8
    ensures k < 8
  {
    if b[0] && b[2] then 1 else if b[2] && b[4] then 3 else if b[4] && b[6] then 5
    else if b[6] && b[0] then 7 else 0
  }

  /** The three cells behind side `k`; `n` is 0, 1 or 2. */
  function Behind(c: Point, k: nat, n: nat): Point
    requires k < 8 && n < 3
  {
    match k
    case 1 => Point(c.i - 2, c.j + n - 1)
    case 3 => Point(c.i + n - 1, c.j + 2)
    case 5 => Point(c.i + 2, c.j + n - 1)
    case _ => Point(c.i + n - 1, c.j - 2)
  }

  lemma BehindInside(xs: nat, ys: nat, c: Point)
    requires Interior(xs, ys, c)
    ensures forall k, n :: 0 <= k < 8 && 0 <= n < 3 ==> Inside(xs, ys, Behind(c, k, n))
  {}

  predicate Clear(s: seq<int>, xs: nat, ys: nat, c: Point, k: nat)
    requires |s| == xs * ys && Interior(xs, ys, c) && k < 8
  {
    BehindInside(xs, ys, c);
    !Lit(s, xs, ys, Behind(c, k, 0)) && !Lit(s, xs, ys, Behind(c, k, 1)) && !Lit(s, xs, ys, Behind(c, k, 2))
  }

  /** The line goes on, off the axis, behind side `k`. */
  predicate GoesOn(s: seq<int>, xs: nat, ys: nat, c: Point, k: nat)
    requires |s| == xs * ys && Interior(xs, ys, c) && k < 8
  {
    BehindInside(xs, ys, c);
    Lit(s, xs, ys, Behind(c, k, 0)) || Lit(s, xs, ys, Behind(c, k, 2))
  }

  /** Two sides at a right angle, one of which goes on. */
  predicate Bent(s: seq<int>, xs: nat, ys: nat, c: Point)
    requires |s| == xs * ys && Interior(xs, ys, c)
  {
    var b := Ring(s, xs, ys, c);
    && Sides(b) == 2 && (b[1] || b[5]) && (b[3] || b[7])
    && (|| (b[1] && GoesOn(s, xs, ys, c, 1)) || (b[3] && GoesOn(s, xs, ys, c, 3))
        || (b[5] && GoesOn(s, xs, ys, c, 5)) || (b[7] && GoesOn(s, xs, ys, c, 7)))
  }

  /** The case of a single neighbour. */
  function DecideEnd(r: seq<int>, xs: nat, ys: nat, c: Point, b: seq<bool>, value: int): Action
    requires |r| == xs * ys && Interior(xs, ys, c) && |b| == 8
  {
    var (t, m) := Best(Weights(r, xs, ys, c, Only(b)), 9);
    if value < 6 && m > 0 then Extend(t, if value < 4 then 4 else value + 1) else Keep
  }

  /** The case of two neighbours; `above` is the comparison of two responses in floating point. */
  function DecidePair(s: seq<int>, r: seq<int>, xs: nat, ys: nat, c: Point, above: (int, int) -> bool): Action
    requires |s| == |r| == xs * ys && Interior(xs, ys, c)
  {
    Near(xs, ys, c);
    var b := Ring(s, xs, ys, c);
    var k := Between(b);
    if k != 0 then
      if above(Cell(r, xs, ys, Around(c, k)), Cell(r, xs, ys, c)) && Clear(s, xs, ys, c, k) then Move(k) else Keep
    else if Bent(s, xs, ys, c) then Delete(true)
    else Keep
  }

  function Decide(s: seq<int>, r: seq<int>, xs: nat, ys: nat, c: Point, above: (int, int) -> bool): Action
    requires |s| == |r| == xs * ys && Interior(xs, ys, c)
  {
    Near(xs, ys, c);
    var b := Ring(s, xs, ys, c);
    if !Lit(s, xs, ys, c) then Keep
    else if Count(b) == 0 then Delete(false)
    else if Count(b) == 1 then DecideEnd(r, xs, ys, c, b, Cell(s, xs, ys, c))
    else if Count(b) == 2 then DecidePair(s, r, xs, ys, c, above)
    else if Sides(b) > 1 && Pieces(b) < 2 then Delete(true)
    else Keep
  }

  function After(s: seq<int>, xs: nat, ys: nat, c: Point, a: Action): (t: seq<int>)
    requires |s| == xs * ys && Interior(xs, ys, c)
    requires (a.Extend? ==> a.t < 9) && (a.Move? ==> a.k < 8)
    ensures |t| == |s|
  {
    Near(xs, ys, c);
    match a
    case Keep => s
    case Delete(_) => s[Ix(xs, ys, c) := 100]
    case Extend(t, v) => s[Ix(xs, ys, Square(c, t)) := v]
    case Move(k) => s[Ix(xs, ys, c) := 100][Ix(xs, ys, Around(c, k)) := 3]
  }

  /** The loop position from which the scan goes on, one column further. */
  function Resume(c: Point, a: Action): Point {
    match a
    case Delete(back) => if back then Clamp(c.i - 1, c.j - 2) else c
    case Extend(t, _) => if t / 3 + t / 3 + t % 3 < 3 then Clamp(c.i + t / 3 - 1, c.j + t % 3 - 2) else c
    case _ => c
  }

  function Clamp(i: int, j: int): Point {
    Point(if i < 4 then 4 else i, if j < 4 then 4 else j)
  }

  // ----- connectivity

  /** Every two points that are edge points before and after, and were connected, still are. */
  ghost predicate Keeps(e: iset<Point>, e': iset<Point>) {
    forall p, q :: p in e && q in e && p in e' && q in e' && Connected(e, p, q) ==> Connected(e', p, q)
  }

  lemma RemovedKeeps(e: iset<Point>, c: Point)
    requires Pieces(Bits(e, c)) < 2
    ensures Keeps(e, e - iset{c})
  {
    hide Connected, Pieces, Around;
    forall k | 0 <= k < 8 ensures Bits(e - iset{c}, c)[k] == Bits(e, c)[k] { RingAdjacent(c, k); }
    assert Bits(e - iset{c}, c) == Bits(e, c);
    FewPiecesJoined(e - iset{c}, c);
    forall p, q | p in e && q in e && p != c && q != c && Connected(e, p, q)
      ensures Connected(e - iset{c}, p, q)
    {
      RemovalKeeps(e, c, p, q);
    }
  }

  lemma AddedKeeps(e: iset<Point>, p: Point)
    ensures Keeps(e, e + iset{p})
  {
    hide Connected;
    forall u, v | Connected(e, u, v) ensures Connected(e + iset{p}, u, v) {
      MorePoints(e, e + iset{p}, u, v);
    }
  }

  /** Moving into line: first the new point, then without the old one. */
  lemma MovedKeeps(e: iset<Point>, c: Point, k: nat)
    requires c in e && k < 8 && Count(Bits(e, c)) == 2 && k == Between(Bits(e, c)) != 0
    ensures Keeps(e, e - iset{c} + iset{Around(c, k)})
  {
    var p := Around(c, k);
    var b, b' := Bits(e, c), Bits(e + iset{p}, c);
    MovedPieces(b, k);
    forall m | 0 <= m < 8 ensures b'[m] == (b[m] || m == k) {
      if Around(c, m) == p { Distinct(c, m, k); }
    }
    assert b' == b[k := true];
    hide Connected, Pieces, Count, Between;
    RingAdjacent(c, k);
    AddedKeeps(e, p);
    RemovedKeeps(e + iset{p}, c);
    assert e + iset{p} - iset{c} == e - iset{c} + iset{p};
  }

  lemma MovedPieces(b: seq<bool>, k: nat)
    requires |b| == 8 && k < 8 && Count(b) == 2 && k == Between(b) != 0
    ensures Pieces(b[k := true]) < 2
  {}

  lemma BentPieces(b: seq<bool>)
    requires |b| == 8 && Count(b) == 2 && Sides(b) == 2 && (b[1] || b[5]) && (b[3] || b[7])
    ensures Pieces(b) < 2
  {}

  lemma NonePieces(b: seq<bool>)
    requires |b| == 8 && Count(b) == 0
    ensures Pieces(b) < 2
  {}

  lemma DeletePieces(s: seq<int>, r: seq<int>, xs: nat, ys: nat, c: Point, above: (int, int) -> bool)
    requires |s| == |r| == xs * ys && Interior(xs, ys, c)
    requires Decide(s, r, xs, ys, c, above).Delete?
    ensures Pieces(Ring(s, xs, ys, c)) < 2
  {
    hide Pieces, Count, Sides, Ring, Weights, Best, GoesOn, Clear;
    var b := Ring(s, xs, ys, c);
    if Count(b) == 0 { NonePieces(b); }
    if Count(b) == 2 { BentPieces(b); }
  }

  /** The actions that are taken stay on the neighbourhood, and set only edge values. */
  lemma DecideOk(s: seq<int>, r: seq<int>, xs: nat, ys: nat, c: Point, above: (int, int) -> bool)
    requires |s| == |r| == xs * ys && Interior(xs, ys, c)
    ensures var a := Decide(s, r, xs, ys, c, above);
            && (a.Extend? ==> a.t < 9 && a.t != 4 && a.value < 8)
            && (a.Move? ==> a.k < 8 && Lit(s, xs, ys, c) && Count(Ring(s, xs, ys, c)) == 2
                            && a.k == Between(Ring(s, xs, ys, c)) != 0)
  {
    hide Pieces, Count, Sides, Ring, GoesOn, Clear, Bent, Between, Only, Weighted;
  }

  /** No step of the thinning separates surviving edge points. */
  lemma StepKeeps(s: seq<int>, r: seq<int>, xs: nat, ys: nat, c: Point, above: (int, int) -> bool)
    requires |s| == |r| == xs * ys && Interior(xs, ys, c)
    ensures var a := Decide(s, r, xs, ys, c, above);
            && (a.Extend? ==> a.t < 9) && (a.Move? ==> a.k < 8)
            && Keeps(Edges(s, xs, ys), Edges(After(s, xs, ys, c, a), xs, ys))
  {
    var a := Decide(s, r, xs, ys, c, above);
    var e := Edges(s, xs, ys);
    DecideOk(s, r, xs, ys, c, above);
    Near(xs, ys, c);
    RingBits(s, xs, ys, c);
    if a.Delete? { DeletePieces(s, r, xs, ys, c, above); }
    hide Decide, Edges, Ring, Pieces, Count, Between, Keeps, Lit, Ix, Around;
    match a
    case Keep => KeepsSelf(e);
    case Delete(_) =>
      Written(s, xs, ys, c, 100);
      RemovedKeeps(e, c);
    case Extend(t, v) =>
      Written(s, xs, ys, Square(c, t), v);
      AddedKeeps(e, Square(c, t));
    case Move(k) =>
      Written(s, xs, ys, c, 100);
      Written(s[Ix(xs, ys, c) := 100], xs, ys, Around(c, k), 3);
      LitIsEdge(s, xs, ys, c);
      MovedKeeps(e, c, k);
  }

  lemma KeepsSelf(e: iset<Point>)
    ensures Keeps(e, e)
  {}

  lemma LitIsEdge(s: seq<int>, xs: nat, ys: nat, c: Point)
    requires |s| == xs * ys && Inside(xs, ys, c)
    ensures Lit(s, xs, ys, c) <==> c in Edges(s, xs, ys)
  {}

  /** A point with more than two neighbours, two of them at sides, is deleted if and only if its
      neighbours are connected without it. */
  lemma ThickPoints(s: seq<int>, r: seq<int>, xs: nat, ys: nat, c: Point, above: (int, int) -> bool)
    requires |s| == |r| == xs * ys && Interior(xs, ys, c) && Inside(xs, ys, c) && Lit(s, xs, ys, c)
    requires Count(Ring(s, xs, ys, c)) > 2 && Sides(Ring(s, xs, ys, c)) > 1
    ensures Decide(s, r, xs, ys, c, above).Delete? <==> Joined(Surround(Edges(s, xs, ys), c), c)
  {
    RingBits(s, xs, ys, c);
    PiecesExact(Edges(s, xs, ys), c);
    hide Edges, Joined, Surround, Pieces, Count, Sides, Ring, Weights, Best;
  }

  // ----- what the loop body is for, in terms of points

  /** `u` is an edge point next to `c`. */
  ghost predicate LitNear(s: seq<int>, xs: nat, ys: nat, c: Point, u: Point)
    requires |s| == xs * ys
  {
    Adjacent(u, c) && u in Edges(s, xs, ys)
  }

  ghost predicate NoneNear(s: seq<int>, xs: nat, ys: nat, c: Point)
    requires |s| == xs * ys
  {
    forall u :: !LitNear(s, xs, ys, c, u)
  }

  ghost predicate OneNear(s: seq<int>, xs: nat, ys: nat, c: Point, q: Point)
    requires |s| == xs * ys
  {
    LitNear(s, xs, ys, c, q) && forall u :: LitNear(s, xs, ys, c, u) ==> u == q
  }

  ghost predicate TwoNear(s: seq<int>, xs: nat, ys: nat, c: Point, p: Point, q: Point)
    requires |s| == xs * ys
  {
    && p != q && LitNear(s, xs, ys, c, p) && LitNear(s, xs, ys, c, q)
    && forall u :: LitNear(s, xs, ys, c, u) ==> u == p || u == q
  }

  ghost predicate ThreeNear(s: seq<int>, xs: nat, ys: nat, c: Point, p: Point, q: Point, u: Point)
    requires |s| == xs * ys
  {
    && p != q && q != u && u != p
    && LitNear(s, xs, ys, c, p) && LitNear(s, xs, ys, c, q) && LitNear(s, xs, ys, c, u)
  }

  function Abs(x: int): nat { if x < 0 then -x else x }

  /** How far `u` lies from going straight on through `c`, coming from `q`: 4 for straight on, 3 for half
      a right angle off, 2 for a right angle, 0 for turning back. */
  function Turn(c: Point, q: Point, u: Point): nat {
    var ahead := Point(2 * c.i - q.i, 2 * c.j - q.j);
    var off := Abs(u.i - ahead.i) + Abs(u.j - ahead.j);
    if u == q || off > 2 then 0 else 4 - off
  }

  /** The weighted response at `u`. */
  function Pull(r: seq<int>, xs: nat, ys: nat, c: Point, q: Point, u: Point): int
    requires |r| == xs * ys
  {
    if Inside(xs, ys, u) then Cell(r, xs, ys, u) * Turn(c, q, u) else 0
  }

  /** The neighbour with the largest positive weighted response, the first of them in reading order. */
  ghost predicate Strongest(r: seq<int>, xs: nat, ys: nat, c: Point, q: Point, u: Point)
    requires |r| == xs * ys
  {
    && Adjacent(u, c) && Pull(r, xs, ys, c, q, u) > 0
    && forall v :: Adjacent(v, c) ==>
         && Pull(r, xs, ys, c, q, v) <= Pull(r, xs, ys, c, q, u)
         && (Before(v, u) ==> Pull(r, xs, ys, c, q, v) < Pull(r, xs, ys, c, q, u))
  }

  predicate OnSide(c: Point, p: Point) { p.i == c.i || p.j == c.j }

  /** Two corners with one side of the square between them. */
  predicate SameSide(c: Point, p: Point, q: Point) {
    !OnSide(c, p) && !OnSide(c, q) && (p.i == q.i || p.j == q.j)
  }

  function Middle(p: Point, q: Point): Point { Point((p.i + q.i) / 2, (p.j + q.j) / 2) }

  predicate RightAngle(c: Point, p: Point, q: Point) {
    OnSide(c, p) && OnSide(c, q) && p.i != q.i && p.j != q.j
  }

  /** The cells beyond side neighbour `m`, seen from `c`; `n` is -1, 0 or 1. */
  function Beyond(c: Point, m: Point, n: int): Point {
    if m.j == c.j then Point(2 * m.i - c.i, c.j + n) else Point(c.i + n, 2 * m.j - c.j)
  }

  ghost predicate ClearBeyond(s: seq<int>, xs: nat, ys: nat, c: Point, m: Point)
    requires |s| == xs * ys
  {
    Beyond(c, m, -1) !in Edges(s, xs, ys) && Beyond(c, m, 0) !in Edges(s, xs, ys) && Beyond(c, m, 1) !in Edges(s, xs, ys)
  }

  /** The line goes on beyond `m`, off the axis. */
  ghost predicate OnBeyond(s: seq<int>, xs: nat, ys: nat, c: Point, m: Point)
    requires |s| == xs * ys
  {
    Beyond(c, m, -1) in Edges(s, xs, ys) || Beyond(c, m, 1) in Edges(s, xs, ys)
  }

  function AtLeast4(x: int): int { if x < 4 then 4 else x }

  /** A line end grows. */
  ghost predicate EndRule(s: seq<int>, t: seq<int>, r: seq<int>, xs: nat, ys: nat, c: Point, q: Point, at: Point)
    requires |s| == |r| == xs * ys && Inside(xs, ys, c)
  {
    var value := Cell(s, xs, ys, c);
    if value < 6 && exists u :: Adjacent(u, c) && Pull(r, xs, ys, c, q, u) > 0
    then exists u :: Strongest(r, xs, ys, c, q, u) && Inside(xs, ys, u)
                     && t == s[Ix(xs, ys, u) := if value < 4 then 4 else value + 1]
                     && at == if Before(u, c) then Point(AtLeast4(u.i), AtLeast4(u.j - 1)) else c
    else t == s && at == c
  }

  /** A point between two others is moved into line, or deleted if it is the bend of a line. */
  ghost predicate PairRule(s: seq<int>, t: seq<int>, r: seq<int>, xs: nat, ys: nat, c: Point, p: Point, q: Point,
                           above: (int, int) -> bool, at: Point)
    requires |s| == |r| == xs * ys && Inside(xs, ys, c)
  {
    if SameSide(c, p, q) then
      var m := Middle(p, q);
      && at == c && Inside(xs, ys, m)
      && t == if above(Cell(r, xs, ys, m), Cell(r, xs, ys, c)) && ClearBeyond(s, xs, ys, c, m)
              then s[Ix(xs, ys, c) := 100][Ix(xs, ys, m) := 3] else s
    else if RightAngle(c, p, q) && (OnBeyond(s, xs, ys, c, p) || OnBeyond(s, xs, ys, c, q)) then
      t == s[Ix(xs, ys, c) := 100] && at == Point(AtLeast4(c.i - 1), AtLeast4(c.j - 2))
    else t == s && at == c
  }

  /** A point in a thick line is deleted if its neighbours hold together without it. */
  ghost predicate ThickRule(s: seq<int>, t: seq<int>, xs: nat, ys: nat, c: Point, at: Point)
    requires |s| == xs * ys && Inside(xs, ys, c)
  {
    if (exists p, q :: p != q && LitNear(s, xs, ys, c, p) && LitNear(s, xs, ys, c, q) && OnSide(c, p) && OnSide(c, q))
       && Joined(Surround(Edges(s, xs, ys), c), c)
    then t == s[Ix(xs, ys, c) := 100] && at == Point(AtLeast4(c.i - 1), AtLeast4(c.j - 2))
    else t == s && at == c
  }

  /** What one execution of the loop body at `c` makes of the image `s`, and where the scan stands then. */
  ghost predicate Rules(s: seq<int>, t: seq<int>, r: seq<int>, xs: nat, ys: nat, c: Point, above: (int, int) -> bool, at: Point)
    requires |s| == |r| == xs * ys && Inside(xs, ys, c)
  {
    && (c !in Edges(s, xs, ys) ==> t == s && at == c)
    && (c in Edges(s, xs, ys) ==>
          && (NoneNear(s, xs, ys, c) ==> t == s[Ix(xs, ys, c) := 100] && at == c)
          && (forall q :: OneNear(s, xs, ys, c, q) ==> EndRule(s, t, r, xs, ys, c, q, at))
          && (forall p, q :: TwoNear(s, xs, ys, c, p, q) ==> PairRule(s, t, r, xs, ys, c, p, q, above, at))
          && (forall p, q, u :: ThreeNear(s, xs, ys, c, p, q, u) ==> ThickRule(s, t, xs, ys, c, at)))
  }

  /** One of the four cases is always given. */
  lemma RulesApply(s: seq<int>, xs: nat, ys: nat, c: Point)
    requires |s| == xs * ys
    ensures || NoneNear(s, xs, ys, c) || (exists q :: OneNear(s, xs, ys, c, q))
            || (exists p, q :: TwoNear(s, xs, ys, c, p, q))
            || (exists p, q, u :: ThreeNear(s, xs, ys, c, p, q, u))
  {
    hide LitNear;
    if p :| LitNear(s, xs, ys, c, p) {
      if q :| LitNear(s, xs, ys, c, q) && q != p {
        if u :| LitNear(s, xs, ys, c, u) && u != p && u != q {
          assert ThreeNear(s, xs, ys, c, p, q, u);
        } else {
          assert TwoNear(s, xs, ys, c, p, q);
        }
      } else {
        assert OneNear(s, xs, ys, c, p);
      }
    }
  }

  // ----- from the ring to points

  lemma RingNear(s: seq<int>, xs: nat, ys: nat, c: Point, k: nat)
    requires |s| == xs * ys && Interior(xs, ys, c) && k < 8
    ensures Ring(s, xs, ys, c)[k] <==> LitNear(s, xs, ys, c, Around(c, k))
  {
    RingBits(s, xs, ys, c);
    RingAdjacent(c, k);
    hide Edges, Ring, Around;
  }

  lemma CountNone(b: seq<bool>)
    requires |b| == 8 && forall k :: 0 <= k < 8 ==> !b[k]
    ensures Count(b) == 0
  {}

  lemma CountOne(b: seq<bool>, k: nat)
    requires |b| == 8 && k < 8 && b[k] && forall m :: 0 <= m < 8 && m != k ==> !b[m]
    ensures Count(b) == 1 && Only(b) == k
  {}

  lemma CountTwo(b: seq<bool>, k: nat, m: nat)
    requires |b| == 8 && k < 8 && m < 8 && k != m && b[k] && b[m]
    requires forall n :: 0 <= n < 8 && n != k && n != m ==> !b[n]
    ensures Count(b) == 2
  {}

  lemma CountThree(b: seq<bool>, k: nat, m: nat, n: nat)
    requires |b| == 8 && k < 8 && m < 8 && n < 8 && k != m && m != n && n != k && b[k] && b[m] && b[n]
    ensures Count(b) > 2
  {}

  lemma NoneRule(s: seq<int>, xs: nat, ys: nat, c: Point)
    requires |s| == xs * ys && Interior(xs, ys, c) && NoneNear(s, xs, ys, c)
    ensures Count(Ring(s, xs, ys, c)) == 0
  {
    hide LitNear, Ring, Count;
    forall k | 0 <= k < 8 ensures !Ring(s, xs, ys, c)[k] { RingNear(s, xs, ys, c, k); }
    CountNone(Ring(s, xs, ys, c));
  }

  lemma OneIs(s: seq<int>, xs: nat, ys: nat, c: Point, q: Point) returns (k: nat)
    requires |s| == xs * ys && Interior(xs, ys, c) && OneNear(s, xs, ys, c, q)
    ensures k < 8 && q == Around(c, k)
    ensures Count(Ring(s, xs, ys, c)) == 1 && Only(Ring(s, xs, ys, c)) == k
  {
    k := OnRing(c, q);
    hide LitNear, Ring, Count, Around, Only;
    forall m | 0 <= m < 8 ensures Ring(s, xs, ys, c)[m] <==> m == k {
      RingNear(s, xs, ys, c, m);
      if m != k && Around(c, m) == q { Distinct(c, m, k); }
    }
    CountOne(Ring(s, xs, ys, c), k);
  }

  lemma TwoAre(s: seq<int>, xs: nat, ys: nat, c: Point, p: Point, q: Point) returns (k: nat, m: nat)
    requires |s| == xs * ys && Interior(xs, ys, c) && TwoNear(s, xs, ys, c, p, q)
    ensures k < 8 && m < 8 && k != m && p == Around(c, k) && q == Around(c, m)
    ensures forall n :: 0 <= n < 8 ==> (Ring(s, xs, ys, c)[n] <==> n == k || n == m)
    ensures Count(Ring(s, xs, ys, c)) == 2
  {
    k := OnRing(c, p);
    m := OnRing(c, q);
    hide LitNear, Ring, Count, Around;
    forall n | 0 <= n < 8 ensures Ring(s, xs, ys, c)[n] <==> n == k || n == m {
      RingNear(s, xs, ys, c, n);
      if Around(c, n) == p { Distinct(c, n, k); }
      if Around(c, n) == q { Distinct(c, n, m); }
    }
    CountTwo(Ring(s, xs, ys, c), k, m);
  }

  lemma ThreeAre(s: seq<int>, xs: nat, ys: nat, c: Point, p: Point, q: Point, u: Point)
    requires |s| == xs * ys && Interior(xs, ys, c) && ThreeNear(s, xs, ys, c, p, q, u)
    ensures Count(Ring(s, xs, ys, c)) > 2
  {
    var k := OnRing(c, p);
    var m := OnRing(c, q);
    var n := OnRing(c, u);
    hide LitNear, Ring, Count, Around;
    RingNear(s, xs, ys, c, k);
    RingNear(s, xs, ys, c, m);
    RingNear(s, xs, ys, c, n);
    CountThree(Ring(s, xs, ys, c), k, m, n);
  }

  // ----- the rule for line ends

  lemma TurnIsWeight(c: Point, p: nat, k: nat)
    requires p < 8 && k < 8
    ensures Turn(c, Around(c, p), Around(c, k)) == Weight(p, k)
  {}

  /** The place of a neighbour in reading order. */
  lemma InSquare(c: Point, u: Point) returns (t: nat)
    requires Adjacent(u, c)
    ensures t < 9 && t != 4 && Square(c, t) == u
  {
    t := 3 * (u.i - c.i + 1) + (u.j - c.j + 1);
  }

  lemma SquareOrder(c: Point, t: nat, u: nat)
    requires t < 9 && u < 9
    ensures Before(Square(c, t), Square(c, u)) <==> t < u
    ensures t != 4 ==> Adjacent(Square(c, t), c)
  {}

  lemma WeightIsPull(r: seq<int>, xs: nat, ys: nat, c: Point, p: nat, t: nat)
    requires |r| == xs * ys && Interior(xs, ys, c) && p < 8 && t < 9 && t != 4
    ensures Weights(r, xs, ys, c, p)[t] == Pull(r, xs, ys, c, Around(c, p), Square(c, t))
  {
    Near(xs, ys, c);
    TurnIsWeight(c, p, RingOf(t));
    hide Turn, Weight, Around, RingOf, Ix, Interior;
  }

  lemma BestIsStrongest(r: seq<int>, xs: nat, ys: nat, c: Point, p: nat)
    requires |r| == xs * ys && Interior(xs, ys, c) && p < 8
    ensures var (t, m) := Best(Weights(r, xs, ys, c, p), 9);
            if m > 0 then t < 9 && t != 4 && Strongest(r, xs, ys, c, Around(c, p), Square(c, t))
            else forall u :: Adjacent(u, c) ==> Pull(r, xs, ys, c, Around(c, p), u) <= 0
  {
    var l := Weights(r, xs, ys, c, p);
    var (t, m) := Best(l, 9);
    hide Best, Weights, Pull, Square, Around, Adjacent, Interior;
    if m > 0 { WeightIsPull(r, xs, ys, c, p, t); SquareOrder(c, t, t); }
    forall v | Adjacent(v, c)
      ensures Pull(r, xs, ys, c, Around(c, p), v) <= m
      ensures m > 0 && Before(v, Square(c, t)) ==> Pull(r, xs, ys, c, Around(c, p), v) < m
    {
      var x := InSquare(c, v);
      WeightIsPull(r, xs, ys, c, p, x);
      if m > 0 { SquareOrder(c, x, t); }
    }
  }

  lemma EndMeans(s: seq<int>, r: seq<int>, xs: nat, ys: nat, c: Point, q: Point, k: nat, b: seq<bool>)
    requires |s| == |r| == xs * ys && Interior(xs, ys, c) && Inside(xs, ys, c) && k < 8 && q == Around(c, k)
    requires |b| == 8 && Only(b) == k
    ensures var a := DecideEnd(r, xs, ys, c, b, Cell(s, xs, ys, c));
            && (a.Extend? ==> a.t < 9) && (a.Extend? || a.Keep?)
            && EndRule(s, After(s, xs, ys, c, a), r, xs, ys, c, q, Resume(c, a))
  {
    BestIsStrongest(r, xs, ys, c, k);
    var (t, m) := Best(Weights(r, xs, ys, c, k), 9);
    hide Best, Weights, Pull, Strongest, Ix, Interior, Around, Only, Square, Adjacent, Inside, EndRule;
    if Cell(s, xs, ys, c) < 6 && m > 0 { EndGrows(s, r, xs, ys, c, q, t); } else { EndStays(s, r, xs, ys, c, q); }
  }

  lemma EndGrows(s: seq<int>, r: seq<int>, xs: nat, ys: nat, c: Point, q: Point, t: nat)
    requires |s| == |r| == xs * ys && Interior(xs, ys, c) && Inside(xs, ys, c) && Cell(s, xs, ys, c) < 6
    requires t < 9 && t != 4 && Strongest(r, xs, ys, c, q, Square(c, t))
    ensures var a := Extend(t, if Cell(s, xs, ys, c) < 4 then 4 else Cell(s, xs, ys, c) + 1);
            EndRule(s, After(s, xs, ys, c, a), r, xs, ys, c, q, Resume(c, a))
  {
    StrongestPulls(r, xs, ys, c, q, Square(c, t));
    SquareInside(xs, ys, c, t);
    ResumeExtend(c, t);
    hide Pull, Strongest, Ix, Interior, Around, Square, Adjacent, Resume, Before;
  }

  lemma EndStays(s: seq<int>, r: seq<int>, xs: nat, ys: nat, c: Point, q: Point)
    requires |s| == |r| == xs * ys && Inside(xs, ys, c)
    requires Cell(s, xs, ys, c) >= 6 || forall u :: Adjacent(u, c) ==> Pull(r, xs, ys, c, q, u) <= 0
    ensures EndRule(s, s, r, xs, ys, c, q, c)
  {
    hide Pull, Strongest, Adjacent, Ix;
  }

  lemma StrongestPulls(r: seq<int>, xs: nat, ys: nat, c: Point, q: Point, u: Point)
    requires |r| == xs * ys && Strongest(r, xs, ys, c, q, u)
    ensures Adjacent(u, c) && Pull(r, xs, ys, c, q, u) > 0
  {}

  lemma SquareInside(xs: nat, ys: nat, c: Point, t: nat)
    requires Interior(xs, ys, c) && t < 9
    ensures Inside(xs, ys, Square(c, t))
  {}

  lemma ResumeExtend(c: Point, t: nat)
    requires t < 9 && t != 4
    ensures forall v :: Resume(c, Extend(t, v)) ==
              if Before(Square(c, t), c) then Point(AtLeast4(Square(c, t).i), AtLeast4(Square(c, t).j - 1)) else c
  {}

  // ----- the rule for pairs

  lemma PairShape(b: seq<bool>, c: Point, k: nat, m: nat)
    requires |b| == 8 && k < 8 && m < 8 && k != m && forall n :: 0 <= n < 8 ==> (b[n] <==> n == k || n == m)
    ensures Between(b) != 0 <==> SameSide(c, Around(c, k), Around(c, m))
    ensures Between(b) != 0 ==> Around(c, Between(b)) == Middle(Around(c, k), Around(c, m)) && Between(b) % 2 == 1
    ensures Sides(b) == 2 && (b[1] || b[5]) && (b[3] || b[7]) <==> RightAngle(c, Around(c, k), Around(c, m))
    ensures RightAngle(c, Around(c, k), Around(c, m)) ==> k % 2 == 1 && m % 2 == 1
  {}

  lemma BehindBeyond(c: Point, k: nat, n: nat)
    requires k < 8 && k % 2 == 1 && n < 3
    ensures Behind(c, k, n) == Beyond(c, Around(c, k), n - 1)
  {}

  lemma ClearMeans(s: seq<int>, xs: nat, ys: nat, c: Point, k: nat)
    requires |s| == xs * ys && Interior(xs, ys, c) && k < 8 && k % 2 == 1
    ensures Clear(s, xs, ys, c, k) <==> ClearBeyond(s, xs, ys, c, Around(c, k))
    ensures GoesOn(s, xs, ys, c, k) <==> OnBeyond(s, xs, ys, c, Around(c, k))
  {
    BehindInside(xs, ys, c);
    BehindBeyond(c, k, 0);
    BehindBeyond(c, k, 1);
    BehindBeyond(c, k, 2);
    hide Behind, Beyond, Around, Lit;
  }

  lemma BentMeans(s: seq<int>, xs: nat, ys: nat, c: Point, k: nat, m: nat)
    requires |s| == xs * ys && Interior(xs, ys, c) && k < 8 && m < 8 && k != m
    requires forall n :: 0 <= n < 8 ==> (Ring(s, xs, ys, c)[n] <==> n == k || n == m)
    ensures Bent(s, xs, ys, c) <==>
            && RightAngle(c, Around(c, k), Around(c, m))
            && (OnBeyond(s, xs, ys, c, Around(c, k)) || OnBeyond(s, xs, ys, c, Around(c, m)))
  {
    PairShape(Ring(s, xs, ys, c), c, k, m);
    hide Ring, Around, OnBeyond, GoesOn, RightAngle, Sides;
    if RightAngle(c, Around(c, k), Around(c, m)) {
      ClearMeans(s, xs, ys, c, k);
      ClearMeans(s, xs, ys, c, m);
    }
  }

  lemma PairMeans(s: seq<int>, r: seq<int>, xs: nat, ys: nat, c: Point, p: Point, q: Point, above: (int, int) -> bool)
    requires |s| == |r| == xs * ys && Interior(xs, ys, c) && Inside(xs, ys, c) && TwoNear(s, xs, ys, c, p, q)
    ensures Count(Ring(s, xs, ys, c)) == 2
    ensures var a := DecidePair(s, r, xs, ys, c, above);
            && (a.Move? ==> a.k < 8) && !a.Extend?
            && PairRule(s, After(s, xs, ys, c, a), r, xs, ys, c, p, q, above, Resume(c, a))
  {
    var k, m := TwoAre(s, xs, ys, c, p, q);
    var b := Ring(s, xs, ys, c);
    Near(xs, ys, c);
    PairShape(b, c, k, m);
    BentMeans(s, xs, ys, c, k, m);
    if Between(b) != 0 { ClearMeans(s, xs, ys, c, Between(b)); }
    hide Ring, Around, Between, Bent, Clear, ClearBeyond, OnBeyond, SameSide, RightAngle, Middle, Count, TwoNear, Ix;
  }

  // ----- the rule for thick lines

  lemma SidesMeans(s: seq<int>, xs: nat, ys: nat, c: Point)
    requires |s| == xs * ys && Interior(xs, ys, c)
    ensures Sides(Ring(s, xs, ys, c)) > 1 <==>
            exists p, q :: p != q && LitNear(s, xs, ys, c, p) && LitNear(s, xs, ys, c, q) && OnSide(c, p) && OnSide(c, q)
  {
    hide LitNear, Ring;
    var b := Ring(s, xs, ys, c);
    forall k | 0 <= k < 8 ensures b[k] <==> LitNear(s, xs, ys, c, Around(c, k)) { RingNear(s, xs, ys, c, k); }
    if p, q :| p != q && LitNear(s, xs, ys, c, p) && LitNear(s, xs, ys, c, q) && OnSide(c, p) && OnSide(c, q) {
      NearIsAdjacent(s, xs, ys, c, p);
      NearIsAdjacent(s, xs, ys, c, q);
      var k := OnRing(c, p);
      var m := OnRing(c, q);
      assert k % 2 == 1 && m % 2 == 1 && b[k] && b[m] && k != m;
    }
    if Sides(b) > 1 {
      var k :| 0 <= k < 8 && k % 2 == 1 && b[k];
      var m :| 0 <= m < 8 && m % 2 == 1 && b[m] && m != k;
      if Around(c, k) == Around(c, m) { Distinct(c, k, m); }
      assert OnSide(c, Around(c, k)) && OnSide(c, Around(c, m));
    }
  }

  lemma NearIsAdjacent(s: seq<int>, xs: nat, ys: nat, c: Point, p: Point)
    requires |s| == xs * ys && LitNear(s, xs, ys, c, p)
    ensures Adjacent(p, c)
  {}

  lemma ThickMeans(s: seq<int>, r: seq<int>, xs: nat, ys: nat, c: Point, above: (int, int) -> bool)
    requires |s| == |r| == xs * ys && Interior(xs, ys, c) && Inside(xs, ys, c) && Lit(s, xs, ys, c)
    requires Count(Ring(s, xs, ys, c)) > 2
    ensures var a := Decide(s, r, xs, ys, c, above);
            && !a.Move? && !a.Extend?
            && ThickRule(s, After(s, xs, ys, c, a), xs, ys, c, Resume(c, a))
  {
    SidesMeans(s, xs, ys, c);
    if Sides(Ring(s, xs, ys, c)) > 1 { ThickPoints(s, r, xs, ys, c, above); }
    hide Ring, Sides, Count, Pieces, Edges, LitNear, Joined, Surround, Ix, OnSide;
  }

  /** The loop body follows the rules. */
  lemma DecideFollows(s: seq<int>, r: seq<int>, xs: nat, ys: nat, c: Point, above: (int, int) -> bool)
    requires |s| == |r| == xs * ys && Interior(xs, ys, c)
    ensures Inside(xs, ys, c)
    ensures var a := Decide(s, r, xs, ys, c, above);
            && (a.Extend? ==> a.t < 9) && (a.Move? ==> a.k < 8)
            && Rules(s, After(s, xs, ys, c, a), r, xs, ys, c, above, Resume(c, a))
  {
    Near(xs, ys, c);
    DecideOk(s, r, xs, ys, c, above);
    LitIsEdge(s, xs, ys, c);
    hide Ring, Count, DecideEnd, DecidePair, EndRule, PairRule, ThickRule, OneNear, TwoNear, ThreeNear, Edges, Lit, Sides,
         Pieces, NoneNear, Ix, Between, Interior, Inside;
    if NoneNear(s, xs, ys, c) { NoneRule(s, xs, ys, c); }
    if Lit(s, xs, ys, c) {
      var a := Decide(s, r, xs, ys, c, above);
      forall q | OneNear(s, xs, ys, c, q) ensures EndRule(s, After(s, xs, ys, c, a), r, xs, ys, c, q, Resume(c, a)) {
        var k := OneIs(s, xs, ys, c, q);
        EndMeans(s, r, xs, ys, c, q, k, Ring(s, xs, ys, c));
      }
      forall p, q | TwoNear(s, xs, ys, c, p, q)
        ensures PairRule(s, After(s, xs, ys, c, a), r, xs, ys, c, p, q, above, Resume(c, a))
      {
        PairMeans(s, r, xs, ys, c, p, q, above);
      }
      forall p, q, u | ThreeNear(s, xs, ys, c, p, q, u)
        ensures ThickRule(s, After(s, xs, ys, c, a), xs, ys, c, Resume(c, a))
      {
        ThreeAre(s, xs, ys, c, p, q, u);
        ThickMeans(s, r, xs, ys, c, above);
      }
    }
  }

  // ----- the loop body, in place

  /** The tests of the neighbours. */
  method ReadRing(mid: array<int>, xs: nat, ys: nat, c: Point) returns (b: seq<bool>)
    requires mid.Length == xs * ys && Interior(xs, ys, c)
    ensures b == Ring(mid[..], xs, ys, c)
  {
    hide Around, Ix, Interior;
    Near(xs, ys, c);
    hide Inside;
    b := [];
    for k := 0 to 8
      invariant b == Ring(mid[..], xs, ys, c)[..k]
    {
      b := b + [mid[Ix(xs, ys, Around(c, k))] < 8];
    }
  }

  /** The responses around a point, weighted away from the neighbour that is there. */
  method ReadWeights(r: array<int>, xs: nat, ys: nat, c: Point, b: seq<bool>) returns (l: seq<int>)
    requires r.Length == xs * ys && Interior(xs, ys, c) && |b| == 8 && Count(b) == 1
    ensures l == Weights(r[..], xs, ys, c, Only(b))
  {
    hide Around, Ix, Interior, Count;
    Near(xs, ys, c);
    hide Inside;
    var v := Responses(r[..], xs, ys, c);
    WeightsAt(r[..], xs, ys, c, Only(b), v);
    hide Weights;
    if b[0] {
      l := [0, 0, v[2] * 2, 0, 0, v[5] * 3, v[6] * 2, v[7] * 3, v[8] * 4];
    } else if b[1] {
      l := [0, 0, 0, v[3] * 2, 0, v[5] * 2, v[6] * 3, v[7] * 4, v[8] * 3];
    } else if b[2] {
      l := [v[0] * 2, 0, 0, v[3] * 3, 0, 0, v[6] * 4, v[7] * 3, v[8] * 2];
    } else if b[7] {
      l := [0, v[1] * 2, v[2] * 3, 0, 0, v[5] * 4, 0, v[7] * 2, v[8] * 3];
    } else if b[3] {
      l := [v[0] * 3, v[1] * 2, 0, v[3] * 4, 0, 0, v[6] * 3, v[7] * 2, 0];
    } else if b[6] {
      l := [v[0] * 2, v[1] * 3, v[2] * 4, 0, 0, v[5] * 3, 0, 0, v[8] * 2];
    } else if b[5] {
      l := [v[0] * 3, v[1] * 4, v[2] * 3, v[3] * 2, 0, v[5] * 2, 0, 0, 0];
    } else {
      l := [v[0] * 4, v[1] * 3, v[2] * 2, v[3] * 3, 0, 0, v[6] * 2, 0, 0];
    }
  }

  /** The unweighted responses in reading order. */
  function Responses(r: seq<int>, xs: nat, ys: nat, c: Point): (v: seq<int>)
    requires |r| == xs * ys && Interior(xs, ys, c)
    ensures |v| == 9
  {
    Near(xs, ys, c);
    seq(9, t requires 0 <= t < 9 => if t == 4 then 0 else Cell(r, xs, ys, Around(c, RingOf(t))))
  }

  lemma WeightsAt(r: seq<int>, xs: nat, ys: nat, c: Point, p: nat, v: seq<int>)
    requires |r| == xs * ys && Interior(xs, ys, c) && p < 8 && v == Responses(r, xs, ys, c)
    ensures Weights(r, xs, ys, c, p) ==
            [v[0] * Weight(p, 0), v[1] * Weight(p, 1), v[2] * Weight(p, 2), v[3] * Weight(p, 7), 0,
             v[5] * Weight(p, 3), v[6] * Weight(p, 6), v[7] * Weight(p, 5), v[8] * Weight(p, 4)]
  {
    hide Cell, Around, Weight, Inside, Interior;
  }

  /** The search for the highest point. */
  method FindBest(l: seq<int>) returns (m: int, a: nat, b: nat)
    requires |l| == 9
    ensures Best(l, 9).1 == m && (m > 0 ==> Best(l, 9).0 == 3 * a + b && a < 3 && b < 3)
  {
    m, a, b := 0, 0, 0;
    for y := 0 to 3
      invariant a < 3 && b < 3
      invariant Best(l, 3 * y).1 == m && (m > 0 ==> Best(l, 3 * y).0 == 3 * a + b)
    {
      for x := 0 to 3
        invariant a < 3 && b < 3
        invariant Best(l, 3 * y + x).1 == m && (m > 0 ==> Best(l, 3 * y + x).0 == 3 * a + b)
      {
        if l[y + y + y + x] > m { m, a, b := l[y + y + y + x], y, x; }
      }
    }
  }

  /** n == 1: extend the line if possible. */
  method ThinEnd(mid: array<int>, r: array<int>, xs: nat, ys: nat, c: Point, b: seq<bool>) returns (i: int, j: int)
    requires mid != r && mid.Length == r.Length == xs * ys && Interior(xs, ys, c)
    requires |b| == 8 && Count(b) == 1 && Inside(xs, ys, c)
    modifies mid
    ensures var act := DecideEnd(r[..], xs, ys, c, b, Cell(old(mid[..]), xs, ys, c));
            && (act.Extend? ==> act.t < 9) && (act.Extend? || act.Keep?)
            && mid[..] == After(old(mid[..]), xs, ys, c, act) && Point(i, j) == Resume(c, act)
  {
    i, j := c.i, c.j;
    var value := mid[Ix(xs, ys, c)];
    hide Count, Ix, Weights, Best, Only, Around;
    if value < 6 {
      var l := ReadWeights(r, xs, ys, c, b);
      var m, a, x := FindBest(l);
      if m > 0 {
        ghost var t: nat := 3 * a + x;
        Near(xs, ys, c);
        assert t / 3 == a && t % 3 == x && Square(c, t) == Point(c.i + a - 1, c.j + x - 1);
        assert t != 4;
        var p := Point(i + a - 1, j + x - 1);
        mid[Ix(xs, ys, p)] := if value < 4 then 4 else value + 1;
        if a + a + x < 3 {
          i, j := i + a - 1, j + x - 2;
          if i < 4 { i := 4; }
          if j < 4 { j := 4; }
        }
      }
    }
  }

  /** n == 2: straighten the line, or clear a right angle. */
  method ThinPair(mid: array<int>, r: array<int>, xs: nat, ys: nat, c: Point, b: seq<bool>,
                  above: (int, int) -> bool) returns (i: int, j: int)
    requires mid != r && mid.Length == r.Length == xs * ys && Interior(xs, ys, c)
    requires b == Ring(mid[..], xs, ys, c) && Count(b) == 2
    modifies mid
    ensures var act := DecidePair(old(mid[..]), r[..], xs, ys, c, above);
            && (act.Move? ==> act.k < 8) && !act.Extend?
            && mid[..] == After(old(mid[..]), xs, ys, c, act) && Point(i, j) == Resume(c, act)
  {
    i, j := c.i, c.j;
    Near(xs, ys, c);
    hide Ix, Ring, Around, Inside, Clear, GoesOn, Interior;
    PairCases(b);
    if One(b[0]) + One(b[2]) + One(b[6]) + One(b[4]) == 2 && (b[0] || b[4]) && (b[2] || b[6]) {
      var k := if b[0] then (if b[2] then 1 else 7) else (if b[2] then 3 else 5);
      hide Count, Between, Bent;
      if above(r[Ix(xs, ys, Around(c, k))], r[Ix(xs, ys, c)]) {
        var clear := ReadClear(mid, xs, ys, c, k);
        if clear {
          mid[Ix(xs, ys, c)] := 100;
          mid[Ix(xs, ys, Around(c, k))] := 3;
        }
      }
    } else {
      hide Count, Between;
      var g1 := ReadGoesOn(mid, xs, ys, c, 1);
      var g3 := ReadGoesOn(mid, xs, ys, c, 3);
      var g5 := ReadGoesOn(mid, xs, ys, c, 5);
      var g7 := ReadGoesOn(mid, xs, ys, c, 7);
      if Sides(b) == 2 && (b[7] || b[3]) && (b[1] || b[5])
         && ((b[1] && g1) || (b[7] && g7) || (b[3] && g3) || (b[5] && g5)) {
        mid[Ix(xs, ys, c)] := 100;
        i, j := i - 1, j - 2;
        if i < 4 { i := 4; }
        if j < 4 { j := 4; }
      }
    }
  }

  /** The source's test for two corners on one side, and its choice of that side. */
  lemma PairCases(b: seq<bool>)
    requires |b| == 8 && Count(b) == 2
    ensures Between(b) == if One(b[0]) + One(b[2]) + One(b[6]) + One(b[4]) == 2 && (b[0] || b[4]) && (b[2] || b[6])
                          then (if b[0] then (if b[2] then 1 else 7) else (if b[2] then 3 else 5))
                          else 0
  {}

  method ReadClear(mid: array<int>, xs: nat, ys: nat, c: Point, k: nat) returns (r: bool)
    requires mid.Length == xs * ys && Interior(xs, ys, c) && k < 8
    ensures r == Clear(mid[..], xs, ys, c, k)
  {
    BehindInside(xs, ys, c);
    hide Ix, Inside, Interior, Behind;
    r := mid[Ix(xs, ys, Behind(c, k, 1))] > 7 && mid[Ix(xs, ys, Behind(c, k, 0))] > 7
         && mid[Ix(xs, ys, Behind(c, k, 2))] > 7;
  }

  method ReadGoesOn(mid: array<int>, xs: nat, ys: nat, c: Point, k: nat) returns (r: bool)
    requires mid.Length == xs * ys && Interior(xs, ys, c) && k < 8
    ensures r == GoesOn(mid[..], xs, ys, c, k)
  {
    BehindInside(xs, ys, c);
    hide Ix, Inside, Interior, Behind;
    r := mid[Ix(xs, ys, Behind(c, k, 0))] < 8 || mid[Ix(xs, ys, Behind(c, k, 2))] < 8;
  }

  /** n > 2: the thinning proper. */
  method ThinThick(mid: array<int>, xs: nat, ys: nat, c: Point, b: seq<bool>) returns (i: int, j: int)
    requires mid.Length == xs * ys && Interior(xs, ys, c) && |b| == 8
    modifies mid
    ensures var act := if Sides(b) > 1 && Pieces(b) < 2 then Delete(true) else Keep;
            mid[..] == After(old(mid[..]), xs, ys, c, act) && Point(i, j) == Resume(c, act)
  {
    i, j := c.i, c.j;
    hide Ix;
    if Sides(b) > 1 {
      var p1, p2, p3, p4 := b[0] || b[1], b[2] || b[3], b[4] || b[5], b[6] || b[7];
      if One(p1) + One(p2) + One(p3) + One(p4)
         - (One(b[1] && p2) + One(b[3] && p3) + One(b[5] && p4) + One(b[7] && p1)) < 2 {
        mid[Ix(xs, ys, c)] := 100;
        i, j := i - 1, j - 2;
        if i < 4 { i := 4; }
        if j < 4 { j := 4; }
      }
    }
  }

  /** The loop body at `c`: what the rules say. */
  method ThinAt(mid: array<int>, r: array<int>, xs: nat, ys: nat, c: Point, above: (int, int) -> bool)
    returns (i: int, j: int)
    requires mid != r && mid.Length == r.Length == xs * ys && Interior(xs, ys, c)
    modifies mid
    ensures var act := Decide(old(mid[..]), r[..], xs, ys, c, above);
            && (act.Extend? ==> act.t < 9) && (act.Move? ==> act.k < 8)
            && mid[..] == After(old(mid[..]), xs, ys, c, act) && Point(i, j) == Resume(c, act)
    ensures Inside(xs, ys, c) && Rules(old(mid[..]), mid[..], r[..], xs, ys, c, above, Point(i, j))
  {
    i, j := c.i, c.j;
    DecideFollows(mid[..], r[..], xs, ys, c, above);
    Near(xs, ys, c);
    hide Ix, Ring, Count, DecideEnd, DecidePair, Sides, Pieces, Rules;
    if mid[Ix(xs, ys, c)] < 8 {
      var b := ReadRing(mid, xs, ys, c);
      if Count(b) == 0 {
        mid[Ix(xs, ys, c)] := 100;
      } else if Count(b) == 1 {
        i, j := ThinEnd(mid, r, xs, ys, c, b);
      } else if Count(b) == 2 {
        i, j := ThinPair(mid, r, xs, ys, c, b, above);
      } else {
        i, j := ThinThick(mid, xs, ys, c, b);
      }
    }
  }

  // ----- whole runs

  /** Images that follow each other by steps of the thinning, anywhere. */
  ghost predicate IsThinning(run: seq<seq<int>>, r: seq<int>, xs: nat, ys: nat, above: (int, int) -> bool) {
    && run != [] && |r| == xs * ys
    && (forall n :: 0 <= n < |run| ==> |run[n]| == xs * ys)
    && (forall n :: 0 < n < |run| ==> Steps(run[n - 1], run[n], r, xs, ys, above))
  }

  ghost predicate Steps(s: seq<int>, t: seq<int>, r: seq<int>, xs: nat, ys: nat, above: (int, int) -> bool)
    requires |s| == |t| == |r| == xs * ys
  {
    exists c :: Interior(xs, ys, c) && StepsAt(s, t, r, xs, ys, c, above)
  }

  predicate StepsAt(s: seq<int>, t: seq<int>, r: seq<int>, xs: nat, ys: nat, c: Point, above: (int, int) -> bool)
    requires |s| == |t| == |r| == xs * ys && Interior(xs, ys, c)
  {
    var a := Decide(s, r, xs, ys, c, above);
    && (a.Extend? ==> a.t < 9) && (a.Move? ==> a.k < 8) && t == After(s, xs, ys, c, a)
  }

  /** Points that are edge points all along stay connected, however long the thinning goes on. */
  lemma {:induction false} RunKeeps(run: seq<seq<int>>, r: seq<int>, xs: nat, ys: nat, above: (int, int) -> bool,
                                    n: nat, p: Point, q: Point)
    requires IsThinning(run, r, xs, ys, above) && n < |run|
    requires forall k :: 0 <= k <= n ==> p in Edges(run[k], xs, ys) && q in Edges(run[k], xs, ys)
    requires Connected(Edges(run[0], xs, ys), p, q)
    ensures Connected(Edges(run[n], xs, ys), p, q)
    decreases n
  {
    hide Edges, Connected, Decide, After;
    if n > 0 {
      RunKeeps(run, r, xs, ys, above, n - 1, p, q);
      assert Steps(run[n - 1], run[n], r, xs, ys, above);
      var c :| Interior(xs, ys, c) && StepsAt(run[n - 1], run[n], r, xs, ys, c, above);
      StepKeeps(run[n - 1], r, xs, ys, c, above);
    }
  }

  /** The position after `p`, row by row. */
  function Following(xs: nat, p: Point): Point {
    if p.j + 1 < xs - 4 then Point(p.i, p.j + 1) else Point(p.i + 1, 4)
  }

  /** A scan: it starts at the upper left, executes the body at each position in turn, and goes on from
      where the body left it. */
  ghost predicate IsScan(run: seq<seq<int>>, visits: seq<Point>, r: seq<int>, xs: nat, ys: nat, above: (int, int) -> bool) {
    && |run| == |visits| + 1 && |r| == xs * ys
    && (forall n :: 0 <= n < |run| ==> |run[n]| == xs * ys)
    && (forall n :: 0 <= n < |visits| ==> Interior(xs, ys, visits[n]))
    && (forall n :: 0 <= n < |visits| ==> StepsAt(run[n], run[n + 1], r, xs, ys, visits[n], above))
    && (visits != [] ==> visits[0] == Point(4, 4))
    && (forall n :: 0 < n < |visits| ==>
          visits[n] == Following(xs, Resume(visits[n - 1], Decide(run[n - 1], r, xs, ys, visits[n - 1], above))))
  }

  /** The scan stands at `next`. */
  ghost predicate ScanAt(run: seq<seq<int>>, visits: seq<Point>, r: seq<int>, xs: nat, ys: nat, above: (int, int) -> bool,
                         next: Point) {
    && IsScan(run, visits, r, xs, ys, above)
    && next == if visits == [] then Point(4, 4)
               else Following(xs, Resume(visits[|visits| - 1],
                                         Decide(run[|visits| - 1], r, xs, ys, visits[|visits| - 1], above)))
  }

  /** Every interior point before `next` has been visited. */
  ghost predicate CoveredTo(visits: seq<Point>, xs: nat, ys: nat, next: Point) {
    forall p :: Interior(xs, ys, p) && Before(p, next) ==> p in visits
  }

  lemma ScanSteps(run: seq<seq<int>>, visits: seq<Point>, r: seq<int>, xs: nat, ys: nat, above: (int, int) -> bool)
    requires IsScan(run, visits, r, xs, ys, above)
    ensures IsThinning(run, r, xs, ys, above)
  {
    hide StepsAt, Interior, Resume, Decide, Following;
    forall n | 0 < n < |run| ensures Steps(run[n - 1], run[n], r, xs, ys, above) {
      assert StepsAt(run[n - 1], run[n], r, xs, ys, visits[n - 1], above);
    }
  }

  lemma ScanOneMore(run: seq<seq<int>>, visits: seq<Point>, r: seq<int>, xs: nat, ys: nat, above: (int, int) -> bool,
                    c: Point, t: seq<int>)
    requires ScanAt(run, visits, r, xs, ys, above, c) && Interior(xs, ys, c) && |t| == xs * ys
    requires StepsAt(run[|visits|], t, r, xs, ys, c, above)
    ensures ScanAt(run + [t], visits + [c], r, xs, ys, above,
                   Following(xs, Resume(c, Decide(run[|visits|], r, xs, ys, c, above))))
  {
    hide StepsAt, Interior, Resume, Decide, Following;
  }

  /** Wherever the body sends the scan, what lies before has been visited. */
  lemma CoverOneMore(visits: seq<Point>, xs: nat, ys: nat, c: Point, a: Action)
    requires CoveredTo(visits, xs, ys, c) && Interior(xs, ys, c)
    ensures CoveredTo(visits + [c], xs, ys, Following(xs, Resume(c, a)))
  {
    ResumeInside(c, a);
    var at := Resume(c, a);
    hide Resume;
    forall p | Interior(xs, ys, p) && Before(p, Following(xs, at)) ensures p in visits + [c] {
      assert Before(p, at) || p == at;
      assert Before(at, c) || at == c;
    }
  }

  /**
   The two loops of susan_thin, stopped after `limit` executions of the body if they have not ended
   by then.  `run` records the images, `visits` the positions.  When the loops end, the body has been
   executed at every position that they range over.
   */
  method Thin(mid: array<int>, r: array<int>, xs: nat, ys: nat, above: (int, int) -> bool, limit: nat)
    returns (ghost run: seq<seq<int>>, ghost visits: seq<Point>, ended: bool)
    requires mid != r && mid.Length == r.Length == xs * ys
    modifies mid
    ensures IsScan(run, visits, r[..], xs, ys, above) && IsThinning(run, r[..], xs, ys, above)
    ensures run[0] == old(mid[..]) && run[|run| - 1] == mid[..]
    ensures |visits| <= limit && (!ended && 4 < ys - 4 && 4 < xs - 4 ==> |visits| == limit)
    ensures ended ==> forall p: Point :: 4 <= p.i < ys - 4 && 4 <= p.j < xs - 4 ==> p in visits
  {
    run, visits := [mid[..]], [];
    var i, left := 4, limit;
    while i < ys - 4 && left > 0
      invariant i >= 4 && |visits| + left == limit
      invariant run != [] && run[0] == old(mid[..]) && run[|run| - 1] == mid[..]
      invariant 4 < xs - 4 ==> ScanAt(run, visits, r[..], xs, ys, above, Point(i, 4)) || left == 0
      invariant IsScan(run, visits, r[..], xs, ys, above)
      invariant CoveredTo(visits, xs, ys, Point(i, 4)) || (left == 0 && i < ys - 4)
      decreases left, ys - i
    {
      i, left, run, visits := ThinRows(mid, r, xs, ys, above, i, left, run, visits);
    }
    ended := i >= ys - 4;
    ScanSteps(run, visits, r[..], xs, ys, above);
  }

  /** The inner loop, and the step to the next row. */
  method ThinRows(mid: array<int>, r: array<int>, xs: nat, ys: nat, above: (int, int) -> bool, i0: int, left0: nat,
                  ghost run0: seq<seq<int>>, ghost visits0: seq<Point>)
    returns (i: int, left: nat, ghost run: seq<seq<int>>, ghost visits: seq<Point>)
    requires mid != r && mid.Length == r.Length == xs * ys && 4 <= i0 < ys - 4 && left0 > 0
    requires IsScan(run0, visits0, r[..], xs, ys, above) && run0[|run0| - 1] == mid[..]
    requires 4 < xs - 4 ==> ScanAt(run0, visits0, r[..], xs, ys, above, Point(i0, 4))
    requires CoveredTo(visits0, xs, ys, Point(i0, 4))
    modifies mid
    ensures i >= 4 && |visits| + left == |visits0| + left0
    ensures left < left0 || (left == left0 && i == i0 + 1)
    ensures run != [] && run[0] == run0[0] && run[|run| - 1] == mid[..]
    ensures IsScan(run, visits, r[..], xs, ys, above)
    ensures 4 < xs - 4 ==> ScanAt(run, visits, r[..], xs, ys, above, Point(i, 4)) || left == 0
    ensures CoveredTo(visits, xs, ys, Point(i, 4)) || (left == 0 && i < ys - 4)
  {
    i, left, run, visits := i0, left0, run0, visits0;
    var j := 4;
    while j < xs - 4 && left > 0
      invariant 4 <= i < ys - 4 && j >= 4 && |visits| + left == |visits0| + left0
      invariant left < left0 || (left == left0 && i == i0 && j == 4)
      invariant run != [] && run[0] == run0[0] && run[|run| - 1] == mid[..]
      invariant IsScan(run, visits, r[..], xs, ys, above) && CoveredTo(visits, xs, ys, Point(i, j))
      invariant 4 < xs - 4 ==> ScanAt(run, visits, r[..], xs, ys, above, if j < xs - 4 then Point(i, j) else Point(i + 1, 4))
      decreases left
    {
      i, j, run, visits := ThinNext(mid, r, xs, ys, above, i, j, run, visits);
      left := left - 1;
    }
    if j >= xs - 4 {
      CoverRow(visits, xs, ys, i, j);
      i := i + 1;
    }
  }

  lemma CoverRow(visits: seq<Point>, xs: nat, ys: nat, i: int, j: int)
    requires CoveredTo(visits, xs, ys, Point(i, j)) && j >= xs - 4
    ensures CoveredTo(visits, xs, ys, Point(i + 1, 4))
  {
    forall p | Interior(xs, ys, p) && Before(p, Point(i + 1, 4)) ensures p in visits {
      assert Before(p, Point(i, j));
    }
  }

  /** One execution of the body, and the step to the next column. */
  method ThinNext(mid: array<int>, r: array<int>, xs: nat, ys: nat, above: (int, int) -> bool, i0: int, j0: int,
                  ghost run0: seq<seq<int>>, ghost visits0: seq<Point>)
    returns (i: int, j: int, ghost run: seq<seq<int>>, ghost visits: seq<Point>)
    requires mid != r && mid.Length == r.Length == xs * ys && Interior(xs, ys, Point(i0, j0))
    requires ScanAt(run0, visits0, r[..], xs, ys, above, Point(i0, j0)) && run0[|run0| - 1] == mid[..]
    requires CoveredTo(visits0, xs, ys, Point(i0, j0))
    modifies mid
    ensures 4 <= i <= i0 && j > 4 && |visits| == |visits0| + 1
    ensures |run| == |visits| + 1 && run[0] == run0[0] && run[|run| - 1] == mid[..]
    ensures ScanAt(run, visits, r[..], xs, ys, above, if j < xs - 4 then Point(i, j) else Point(i + 1, 4))
    ensures CoveredTo(visits, xs, ys, Point(i, j))
  {
    hide Decide, After, Resume, Rules;
    ghost var s := mid[..];
    var c := Point(i0, j0);
    i, j := ThinAt(mid, r, xs, ys, c, above);
    ghost var a := Decide(s, r[..], xs, ys, c, above);
    ResumeInside(c, a);
    ScanOneMore(run0, visits0, r[..], xs, ys, above, c, mid[..]);
    CoverOneMore(visits0, xs, ys, c, a);
    run, visits := run0 + [mid[..]], visits0 + [c];
    CoverShort(visits, xs, ys, Point(i, j));
    j := j + 1;
  }

  lemma CoverShort(visits: seq<Point>, xs: nat, ys: nat, at: Point)
    requires CoveredTo(visits, xs, ys, Following(xs, at)) && 4 <= at.i
    ensures CoveredTo(visits, xs, ys, Point(at.i, at.j + 1))
  {
    forall p | Interior(xs, ys, p) && Before(p, Point(at.i, at.j + 1)) ensures p in visits {
      assert Before(p, Following(xs, at));
    }
  }

  /** Going back never leaves the image. */
  lemma ResumeInside(c: Point, a: Action)
    requires c.i >= 4 && c.j >= 4
    ensures var p := Resume(c, a); 4 <= p.i <= c.i && 4 <= p.j <= c.j
  {}
}
