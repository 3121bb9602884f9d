/**
 8-connectivity in the plane, and when a point can be taken away without breaking it.
 */
module GridConnect {

  datatype Point = Point(i: int, j: int)

  predicate Adjacent(p: Point, q: Point) {
    p != q && -1 <= p.i - q.i <= 1 && -1 <= p.j - q.j <= 1
  }

  predicate IsPath(e: iset<Point>, s: seq<Point>) {
    && s != [] && (forall k :: 0 <= k < |s| ==> s[k] in e)
    && (forall k :: 0 < k < |s| ==> Adjacent(s[k - 1], s[k]))
  }

  ghost predicate Connected(e: iset<Point>, p: Point, q: Point) {
    exists s :: IsPath(e, s) && s[0] == p && s[|s| - 1] == q
  }

  // ----- an equivalence

  lemma Self(e: iset<Point>, p: Point)
    requires p in e
    ensures Connected(e, p, p)
  {
    assert IsPath(e, [p]);
  }

  lemma Neighbours(e: iset<Point>, p: Point, q: Point)
    requires p in e && q in e && Adjacent(p, q)
    ensures Connected(e, p, q)
  {
    var s := [p, q];
    assert IsPath(e, s) && s[0] == p && s[|s| - 1] == q;
  }

  lemma Through(e: iset<Point>, p: Point, q: Point, r: Point)
    requires Connected(e, p, q) && Connected(e, q, r)
    ensures Connected(e, p, r)
  {
    var s :| IsPath(e, s) && s[0] == p && s[|s| - 1] == q;
    var t :| IsPath(e, t) && t[0] == q && t[|t| - 1] == r;
    var u := s + t[1..];
    forall k | 0 < k < |u| ensures Adjacent(u[k - 1], u[k]) {
      if k >= |s| { assert u[k] == t[k - |s| + 1] && u[k - 1] == t[k - |s|]; }
    }
    assert IsPath(e, u) && u[0] == p && u[|u| - 1] == r;
  }

  lemma {:induction false} PathBack(e: iset<Point>, s: seq<Point>)
    requires IsPath(e, s)
    ensures Connected(e, s[|s| - 1], s[0])
    decreases |s|
  {
    if |s| == 1 {
      Self(e, s[0]);
    } else {
      assert Adjacent(s[0], s[1]);
      var t := s[1..];
      assert forall k :: 0 < k < |t| ==> t[k] == s[k + 1] && t[k - 1] == s[k];
      assert IsPath(e, t);
      PathBack(e, t);
      Neighbours(e, s[1], s[0]);
      Through(e, s[|s| - 1], s[1], s[0]);
    }
  }

  lemma Back(e: iset<Point>, p: Point, q: Point)
    requires Connected(e, p, q)
    ensures Connected(e, q, p)
  {
    var s :| IsPath(e, s) && s[0] == p && s[|s| - 1] == q;
    PathBack(e, s);
  }

  /** The points connected to a point. */
  ghost function Class(e: iset<Point>, p: Point): iset<Point> {
    iset q | Connected(e, p, q)
  }

  lemma SameClass(e: iset<Point>, p: Point, q: Point)
    requires p in e && q in e
    ensures Connected(e, p, q) <==> Class(e, p) == Class(e, q)
  {
    Self(e, q);
    assert q in Class(e, q);
    if Connected(e, p, q) {
      Back(e, p, q);
      forall r ensures r in Class(e, p) <==> r in Class(e, q) {
        if Connected(e, p, r) { Through(e, q, p, r); }
        if Connected(e, q, r) { Through(e, p, q, r); }
      }
    }
  }

  // ----- adding and removing points

  lemma MorePoints(e: iset<Point>, e': iset<Point>, p: Point, q: Point)
    requires e <= e' && Connected(e, p, q)
    ensures Connected(e', p, q)
  {
    var s :| IsPath(e, s) && s[0] == p && s[|s| - 1] == q;
    assert IsPath(e', s);
  }

  /** The points around `c` are connected without `c`. */
  ghost predicate Joined(e: iset<Point>, c: Point) {
    forall u, v :: u in e && v in e && Adjacent(u, c) && Adjacent(v, c) ==> Connected(e, u, v)
  }

  /** Following a path up to its point `k`, with `c` left out. */
  lemma {:induction false} Detour(e: iset<Point>, c: Point, s: seq<Point>, k: nat)
    requires IsPath(e, s) && s[0] != c && k < |s| && Joined(e - iset{c}, c)
    ensures s[k] != c ==> Connected(e - iset{c}, s[0], s[k])
    ensures s[k] == c ==> forall u :: u in e && u != c && Adjacent(u, c) ==> Connected(e - iset{c}, s[0], u)
    decreases k
  {
    var d := e - iset{c};
    if k == 0 {
      Self(d, s[0]);
    } else {
      Detour(e, c, s, k - 1);
      assert Adjacent(s[k - 1], s[k]);
      if s[k] == c {
        forall u | u in e && u != c && Adjacent(u, c) ensures Connected(d, s[0], u) {
          Through(d, s[0], s[k - 1], u);
        }
      } else if s[k - 1] != c {
        Neighbours(d, s[k - 1], s[k]);
        Through(d, s[0], s[k - 1], s[k]);
      }
    }
  }

  /** Taking away a point whose surroundings are joined disconnects no others. */
  lemma RemovalKeeps(e: iset<Point>, c: Point, p: Point, q: Point)
    requires Joined(e - iset{c}, c) && Connected(e, p, q) && p != c && q != c
    ensures Connected(e - iset{c}, p, q)
  {
    var s :| IsPath(e, s) && s[0] == p && s[|s| - 1] == q;
    Detour(e, c, s, |s| - 1);
  }

  // ----- the ring of eight neighbours, clockwise from the upper left

  function Around(c: Point, k: nat): Point
    requires k < 8
  {
    match k
    case 0 => Point(c.i - 1, c.j - 1)
    case 1 => Point(c.i - 1, c.j)
    case 2 => Point(c.i - 1, c.j + 1)
    case 3 => Point(c.i, c.j + 1)
    case 4 => Point(c.i + 1, c.j + 1)
    case 5 => Point(c.i + 1, c.j)
    case 6 => Point(c.i + 1, c.j - 1)
    case _ => Point(c.i, c.j - 1)
  }

  lemma OnRing(c: Point, u: Point) returns (k: nat)
    requires Adjacent(u, c)
    ensures k < 8 && u == Around(c, k)
  {
    k := if u.i < c.i then (if u.j < c.j then 0 else if u.j == c.j then 1 else 2)
         else if u.i == c.i then (if u.j > c.j then 3 else 7)
         else (if u.j > c.j then 4 else if u.j == c.j then 5 else 6);
  }

  function One(b: bool): nat { if b then 1 else 0 }

  function Count(b: seq<bool>): nat
    requires |b| == 8
  {
    One(b[0]) + One(b[1]) + One(b[2]) + One(b[3]) + One(b[4]) + One(b[5]) + One(b[6]) + One(b[7])
  }

  /** The neighbours above, right, below and left. */
  function Sides(b: seq<bool>): nat
    requires |b| == 8
  {
    One(b[1]) + One(b[3]) + One(b[5]) + One(b[7])
  }

  /** The number of pieces of the neighbourhood, as susan_thin counts them. */
  function Pieces(b: seq<bool>): int
    requires |b| == 8
  {
    var p1, p2, p3, p4 := b[0] || b[1], b[2] || b[3], b[4] || b[5], b[6] || b[7];
    One(p1) + One(p2) + One(p3) + One(p4)
    - (One(b[1] && p2) + One(b[3] && p3) + One(b[5] && p4) + One(b[7] && p1))
  }

  /** Labels that agree on set neighbours next to each other. */
  predicate Agree<T(==)>(b: seq<bool>, l: seq<T>, k: nat, m: nat)
    requires |b| == |l| == 8 && k < 8 && m < 8
  {
    b[k] && b[m] ==> l[k] == l[m]
  }

  predicate Closed<T(==)>(b: seq<bool>, l: seq<T>)
    requires |b| == |l| == 8
  {
    && Agree(b, l, 0, 1) && Agree(b, l, 1, 2) && Agree(b, l, 2, 3) && Agree(b, l, 3, 4)
    && Agree(b, l, 4, 5) && Agree(b, l, 5, 6) && Agree(b, l, 6, 7) && Agree(b, l, 7, 0)
    && Agree(b, l, 1, 3) && Agree(b, l, 3, 5) && Agree(b, l, 5, 7) && Agree(b, l, 7, 1)
  }

  predicate Uniform<T(==)>(b: seq<bool>, l: seq<T>)
    requires |b| == |l| == 8
  {
    forall k, m :: 0 <= k < 8 && 0 <= m < 8 ==> Agree(b, l, k, m)
  }

  lemma FewPiecesUniform<T>(b: seq<bool>, l: seq<T>)
    requires |b| == |l| == 8 && Closed(b, l) && Pieces(b) < 2
    ensures Uniform(b, l)
  {
  }

  ghost function Bits(e: iset<Point>, c: Point): (b: seq<bool>)
    ensures |b| == 8 && forall k :: 0 <= k < 8 ==> b[k] == (Around(c, k) in e)
  {
    seq(8, k requires 0 <= k < 8 => Around(c, k) in e)
  }

  lemma AgreeOnClass(e: iset<Point>, c: Point, l: seq<iset<Point>>, k: nat, m: nat)
    requires |l| == 8 && k < 8 && m < 8 && Adjacent(Around(c, k), Around(c, m))
    requires l[k] == Class(e, Around(c, k)) && l[m] == Class(e, Around(c, m))
    ensures Agree(Bits(e, c), l, k, m)
  {
    hide Class, Connected;
    if Bits(e, c)[k] && Bits(e, c)[m] {
      Neighbours(e, Around(c, k), Around(c, m));
      SameClass(e, Around(c, k), Around(c, m));
    }
  }

  ghost function Classes(e: iset<Point>, c: Point): (l: seq<iset<Point>>)
    ensures |l| == 8 && forall k :: 0 <= k < 8 ==> l[k] == Class(e, Around(c, k))
  {
    seq(8, k requires 0 <= k < 8 => Class(e, Around(c, k)))
  }

  lemma ClassesClosed(e: iset<Point>, c: Point)
    ensures Closed(Bits(e, c), Classes(e, c))
  {
    hide Class, Bits, Agree, Classes;
    var l := Classes(e, c);
    AgreeOnClass(e, c, l, 0, 1);
    AgreeOnClass(e, c, l, 1, 2);
    AgreeOnClass(e, c, l, 2, 3);
    AgreeOnClass(e, c, l, 3, 4);
    AgreeOnClass(e, c, l, 4, 5);
    AgreeOnClass(e, c, l, 5, 6);
    AgreeOnClass(e, c, l, 6, 7);
    AgreeOnClass(e, c, l, 7, 0);
    AgreeOnClass(e, c, l, 1, 3);
    AgreeOnClass(e, c, l, 3, 5);
    AgreeOnClass(e, c, l, 5, 7);
    AgreeOnClass(e, c, l, 7, 1);
  }

  /** Fewer than two pieces: the neighbours are connected, through the ring alone. */
  lemma FewPiecesJoined(e: iset<Point>, c: Point)
    requires Pieces(Bits(e, c)) < 2
    ensures Joined(e, c)
  {
    hide Class, Connected, Pieces, Closed, Bits, Classes;
    var b, l := Bits(e, c), Classes(e, c);
    ClassesClosed(e, c);
    FewPiecesUniform(b, l);
    forall u, v | u in e && v in e && Adjacent(u, c) && Adjacent(v, c) ensures Connected(e, u, v) {
      hide Around;
      var k := OnRing(c, u);
      var m := OnRing(c, v);
      assert Agree(b, l, k, m);
      SameClass(e, u, v);
    }
  }

  // ----- the count is exact

  /** A quarter turn. */
  function Turned<T>(b: seq<T>): (r: seq<T>)
    requires |b| == 8
    ensures |r| == 8
  {
    [b[2], b[3], b[4], b[5], b[6], b[7], b[0], b[1]]
  }

  function TurnedBack<T>(b: seq<T>): (r: seq<T>)
    requires |b| == 8
    ensures |r| == 8
  {
    [b[6], b[7], b[0], b[1], b[2], b[3], b[4], b[5]]
  }

  /** A labelling that tells two pieces apart. */
  predicate Cuts(b: seq<bool>, l: seq<bool>)
    requires |b| == |l| == 8
  {
    Closed(b, l) && exists k, m :: 0 <= k < 8 && 0 <= m < 8 && b[k] && b[m] && l[k] != l[m]
  }

  lemma TurnedPieces(b: seq<bool>)
    requires |b| == 8
    ensures Pieces(Turned(b)) == Pieces(b)
  {}

  lemma TurnedClosed(b: seq<bool>, l: seq<bool>)
    requires |b| == |l| == 8 && Closed(Turned(b), l)
    ensures Closed(b, TurnedBack(l))
  {}

  lemma TurnedAt(b: seq<bool>, l: seq<bool>, k: nat) returns (m: nat)
    requires |b| == |l| == 8 && k < 8
    ensures m < 8 && b[m] == Turned(b)[k] && TurnedBack(l)[m] == l[k]
  {
    m := if k < 6 then k + 2 else k - 6;
  }

  lemma TurnedCuts(b: seq<bool>, l: seq<bool>)
    requires |b| == |l| == 8 && Cuts(Turned(b), l)
    ensures Cuts(b, TurnedBack(l))
  {
    TurnedClosed(b, l);
    hide Closed, Turned, TurnedBack;
    var k, m :| 0 <= k < 8 && 0 <= m < 8 && Turned(b)[k] && Turned(b)[m] && l[k] != l[m];
    var k' := TurnedAt(b, l, k);
    var m' := TurnedAt(b, l, m);
  }

  /** Marks the piece that starts at a corner, at 0... */
  lemma CutAtCorner(b: seq<bool>) returns (l: seq<bool>)
    requires |b| == 8 && Pieces(b) >= 2 && b[0] && !b[7]
    ensures |l| == 8 && Cuts(b, l)
  {
    var l1 := b[1];
    var l2 := b[2] && l1;
    var l3 := b[3] && (l2 || l1);
    var l4 := b[4] && l3;
    var l5 := b[5] && (l4 || l3);
    var l6 := b[6] && l5;
    l := [true, l1, l2, l3, l4, l5, l6, false];
    assert (b[2] && !l2) || (b[3] && !l3) || (b[4] && !l4) || (b[5] && !l5) || (b[6] && !l6);
  }

  /** ... or at a side, at 1. */
  lemma CutAtSide(b: seq<bool>) returns (l: seq<bool>)
    requires |b| == 8 && Pieces(b) >= 2 && b[1] && !b[0] && !b[7]
    ensures |l| == 8 && Cuts(b, l)
  {
    var l3 := b[3];
    var l4 := b[4] && l3;
    var l5 := b[5] && (l4 || l3);
    var l6 := b[6] && l5;
    l := [false, true, b[2], l3, l4, l5, l6, false];
    assert (b[4] && !l4) || (b[5] && !l5) || (b[6] && !l6);
  }

  /** The start of a piece, at most `turns` quarter turns away. */
  predicate StartsNear(b: seq<bool>, turns: nat)
    requires |b| == 8
    decreases turns
  {
    (b[0] && !b[7]) || (b[1] && !b[0] && !b[7]) || (turns > 0 && StartsNear(Turned(b), turns - 1))
  }

  lemma {:induction false} FindCut(b: seq<bool>, turns: nat) returns (l: seq<bool>)
    requires |b| == 8 && Pieces(b) >= 2 && StartsNear(b, turns)
    ensures |l| == 8 && Cuts(b, l)
    decreases turns
  {
    if b[0] && !b[7] {
      l := CutAtCorner(b);
    } else if b[1] && !b[0] && !b[7] {
      l := CutAtSide(b);
    } else {
      TurnedPieces(b);
      hide Pieces, Cuts;
      l := FindCut(Turned(b), turns - 1);
      TurnedCuts(b, l);
      l := TurnedBack(l);
    }
  }

  lemma SomeStart(b: seq<bool>)
    requires |b| == 8 && Pieces(b) >= 2
    ensures StartsNear(b, 3)
  {
    var b1 := Turned(b);
    var b2 := Turned(b1);
    assert StartsNear(b, 3) <==>
           (b[0] && !b[7]) || (b[1] && !b[0] && !b[7]) || StartsNear(b1, 2);
    assert StartsNear(b1, 2) <==>
           (b[2] && !b[1]) || (b[3] && !b[2] && !b[1]) || StartsNear(b2, 1);
    assert StartsNear(b2, 1) <==>
           (b[4] && !b[3]) || (b[5] && !b[4] && !b[3]) || StartsNear(Turned(b2), 0);
  }

  /** The neighbours of `c` among the points of `e`. */
  ghost function Surround(e: iset<Point>, c: Point): iset<Point> {
    iset p | p in e && Adjacent(p, c)
  }

  lemma LabelKept(e: iset<Point>, c: Point, l: seq<bool>, k: nat, m: nat)
    requires |l| == 8 && k < 8 && m < 8 && Closed(Bits(e, c), l)
    requires Around(c, k) in e && Around(c, m) in e && Adjacent(Around(c, k), Around(c, m))
    ensures l[k] == l[m]
  {
    hide Bits;
    var b := Bits(e, c);
    assert b[k] && b[m];
    hide Agree;
    assert Agree(b, l, k, m) || Agree(b, l, m, k);
    AgreeSays(b, l, k, m);
    AgreeSays(b, l, m, k);
  }

  lemma AgreeSays(b: seq<bool>, l: seq<bool>, k: nat, m: nat)
    requires |b| == |l| == 8 && k < 8 && m < 8 && b[k] && b[m]
    ensures Agree(b, l, k, m) <==> l[k] == l[m]
  {}

  /** Along a path that stays on the ring the label does not change. */
  lemma {:induction false} LabelAlong(e: iset<Point>, c: Point, l: seq<bool>, s: seq<Point>, n: nat, k: nat, m: nat)
    requires |l| == 8 && k < 8 && m < 8 && Closed(Bits(e, c), l)
    requires IsPath(Surround(e, c), s) && n < |s| && s[0] == Around(c, k) && s[n] == Around(c, m)
    ensures l[k] == l[m]
    decreases n
  {
    hide Around, Closed, Bits;
    if n == 0 {
      Distinct(c, k, m);
    } else {
      assert Adjacent(s[n - 1], s[n]);
      var h := OnRing(c, s[n - 1]);
      LabelAlong(e, c, l, s, n - 1, k, h);
      LabelKept(e, c, l, h, m);
    }
  }

  lemma Distinct(c: Point, k: nat, m: nat)
    requires k < 8 && m < 8 && Around(c, k) == Around(c, m)
    ensures k == m
  {}

  /** Fewer than two pieces are counted if and only if the neighbours of `c` are connected among
      themselves. */
  lemma PiecesExact(e: iset<Point>, c: Point)
    ensures Pieces(Bits(e, c)) < 2 <==> Joined(Surround(e, c), c)
  {
    hide Pieces, Connected, Around, Closed;
    var n := Surround(e, c);
    var b := Bits(e, c);
    assert Bits(n, c) == b by { BitsOfSurround(e, c); }
    if Pieces(b) < 2 {
      FewPiecesJoined(n, c);
    } else {
      SomeStart(b);
      var l := FindCut(b, 3);
      var k: nat, m: nat :| k < 8 && m < 8 && b[k] && b[m] && l[k] != l[m];
      var u, v := Around(c, k), Around(c, m);
      RingAdjacent(c, k);
      RingAdjacent(c, m);
      if Connected(n, u, v) {
        NoPath(e, c, l, k, m);
        assert false;
      }
    }
  }

  lemma RingAdjacent(c: Point, k: nat)
    requires k < 8
    ensures Adjacent(Around(c, k), c)
  {}

  lemma NoPath(e: iset<Point>, c: Point, l: seq<bool>, k: nat, m: nat)
    requires |l| == 8 && k < 8 && m < 8 && Closed(Bits(e, c), l)
    requires Connected(Surround(e, c), Around(c, k), Around(c, m))
    ensures l[k] == l[m]
  {
    hide Closed, Bits, Around;
    var s :| IsPath(Surround(e, c), s) && s[0] == Around(c, k) && s[|s| - 1] == Around(c, m);
    LabelAlong(e, c, l, s, |s| - 1, k, m);
  }

  lemma BitsOfSurround(e: iset<Point>, c: Point)
    ensures Bits(Surround(e, c), c) == Bits(e, c)
  {
    hide Around;
    forall k | 0 <= k < 8 ensures Bits(Surround(e, c), c)[k] == Bits(e, c)[k] { RingAdjacent(c, k); }
  }
}
