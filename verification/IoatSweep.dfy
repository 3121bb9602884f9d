/**
 What one pass of __cleanup does to the descriptor lists, in closed form.
 */
module IoatSweep {
  import opened IoatCore

  predicate Has(descs: map<nat, Desc>, l: seq<nat>) {
    forall i :: 0 <= i < |l| ==> l[i] in descs
  }

  /** The entries of `l` that carry a cookie: transactions submitted and not yet retired. */
  function Pend(descs: map<nat, Desc>, l: seq<nat>): (r: seq<nat>)
    requires Has(descs, l)
  {
    if l == [] then [] else (if descs[l[0]].cookie != 0 then [l[0]] else []) + Pend(descs, l[1..])
  }

  /** The entries of `l` whose acknowledge flag is `b`. */
  function WithAck(descs: map<nat, Desc>, l: seq<nat>, b: bool): (r: seq<nat>)
    requires Has(descs, l)
  {
    if l == [] then [] else (if descs[l[0]].acked == b then [l[0]] else []) + WithAck(descs, l[1..], b)
  }

  /** The sum of `tx_cnt` over the entries of `l` that carry a cookie. */
  function Load(descs: map<nat, Desc>, l: seq<nat>): nat
    requires Has(descs, l)
  {
    if l == [] then 0
    else (if descs[l[0]].cookie != 0 then descs[l[0]].txCnt else 0) + Load(descs, l[1..])
  }

  /** The last cookie found on `l`, or `c`. */
  function LastCookie(descs: map<nat, Desc>, l: seq<nat>, c: nat): nat
    requires Has(descs, l)
    decreases |l|
  {
    if l == [] then c
    else LastCookie(descs, l[1..], if descs[l[0]].cookie != 0 then descs[l[0]].cookie else c)
  }

  /** `descs` with the cookies of the entries of `l` cleared. */
  function Retired(descs: map<nat, Desc>, l: seq<nat>): (r: map<nat, Desc>)
    ensures r.Keys == descs.Keys
  {
    map d | d in descs :: if d in l then descs[d].(cookie := 0) else descs[d]
  }

  lemma {:induction false} PendMembers(descs: map<nat, Desc>, l: seq<nat>, d: nat)
    requires Has(descs, l)
    ensures d in Pend(descs, l) <==> d in l && d in descs && descs[d].cookie != 0
  {
    if l != [] { PendMembers(descs, l[1..], d); }
  }

  lemma {:induction false} AckMembers(descs: map<nat, Desc>, l: seq<nat>, b: bool, d: nat)
    requires Has(descs, l)
    ensures d in WithAck(descs, l, b) <==> d in l && d in descs && descs[d].acked == b
  {
    if l != [] { AckMembers(descs, l[1..], b, d); }
  }

  /** Two descriptor maps that agree, on the entries of `l`, about everything a sweep looks at. */
  predicate SameFor(a: map<nat, Desc>, b: map<nat, Desc>, l: seq<nat>) {
    forall i :: 0 <= i < |l| ==> l[i] in a && l[i] in b && SameEntry(a[l[i]], b[l[i]])
  }

  predicate SameEntry(x: Desc, y: Desc) {
    x.cookie == y.cookie && x.acked == y.acked && x.txCnt == y.txCnt
  }

  /** ... about cookies and loads only. */
  predicate SameLoad(a: map<nat, Desc>, b: map<nat, Desc>, l: seq<nat>) {
    forall i :: 0 <= i < |l| ==>
      l[i] in a && l[i] in b && a[l[i]].cookie == b[l[i]].cookie && a[l[i]].txCnt == b[l[i]].txCnt
  }

  lemma {:induction false} SamePend(a: map<nat, Desc>, b: map<nat, Desc>, l: seq<nat>)
    requires SameLoad(a, b, l)
    ensures Pend(a, l) == Pend(b, l) && Load(a, l) == Load(b, l)
  {
    if l != [] { SamePend(a, b, l[1..]); }
  }

  lemma {:induction false} SameAck(a: map<nat, Desc>, b: map<nat, Desc>, l: seq<nat>, f: bool)
    requires SameFor(a, b, l)
    ensures WithAck(a, l, f) == WithAck(b, l, f)
  {
    if l != [] { SameAck(a, b, l[1..], f); }
  }

  lemma {:induction false} SameLastCookie(a: map<nat, Desc>, b: map<nat, Desc>, l: seq<nat>, c: nat)
    requires SameFor(a, b, l)
    ensures LastCookie(a, l, c) == LastCookie(b, l, c)
    decreases |l|
  {
    if l != [] { SameLastCookie(a, b, l[1..], if b[l[0]].cookie != 0 then b[l[0]].cookie else c); }
  }

  lemma PendAppend(descs: map<nat, Desc>, a: seq<nat>, b: seq<nat>)
    requires Has(descs, a) && Has(descs, b)
    ensures Pend(descs, a + b) == Pend(descs, a) + Pend(descs, b)
    ensures Load(descs, a + b) == Load(descs, a) + Load(descs, b)
  {
    CookiesAppend(descs, a, b);
    LoadAppend(descs, a, b);
  }

  lemma {:induction false} CookiesAppend(descs: map<nat, Desc>, a: seq<nat>, b: seq<nat>)
    requires Has(descs, a) && Has(descs, b)
    ensures Pend(descs, a + b) == Pend(descs, a) + Pend(descs, b)
  {
    if a == [] {
      assert a + b == b;
    } else {
      CookiesAppend(descs, a[1..], b);
      assert (a + b)[1..] == a[1..] + b && (a + b)[0] == a[0];
      var head := if descs[a[0]].cookie != 0 then [a[0]] else [];
      calc {
        Pend(descs, a + b);
        head + (Pend(descs, a[1..]) + Pend(descs, b));
        { Assoc(head, Pend(descs, a[1..]), Pend(descs, b)); }
        (head + Pend(descs, a[1..])) + Pend(descs, b);
      }
    }
  }

  lemma {:induction false} LoadAppend(descs: map<nat, Desc>, a: seq<nat>, b: seq<nat>)
    requires Has(descs, a) && Has(descs, b)
    ensures Load(descs, a + b) == Load(descs, a) + Load(descs, b)
  {
    if a == [] {
      assert a + b == b;
    } else {
      LoadAppend(descs, a[1..], b);
      assert (a + b)[1..] == a[1..] + b;
    }
  }

  lemma {:induction false} LastCookieIsLast(descs: map<nat, Desc>, l: seq<nat>, c: nat)
    requires Has(descs, l)
    ensures Pend(descs, l) == [] ==> LastCookie(descs, l, c) == c
    ensures Pend(descs, l) != [] ==> Last(Pend(descs, l)) in descs
                                     && LastCookie(descs, l, c) == descs[Last(Pend(descs, l))].cookie
    decreases |l|
  {
    if l != [] {
      var c' := if descs[l[0]].cookie != 0 then descs[l[0]].cookie else c;
      LastCookieIsLast(descs, l[1..], c');
    }
  }

  lemma {:induction false} LoadNone(descs: map<nat, Desc>, l: seq<nat>)
    requires Has(descs, l) && NoCookies(descs, l)
    ensures Load(descs, l) == 0 && Pend(descs, l) == []
  {
    if l != [] { LoadNone(descs, l[1..]); }
  }

  /** A sweep over `a + [phys] + b`: which entries stay and which are freed... */
  ghost predicate SweptLists(s: Sweep, a: seq<nat>, phys: nat, b: seq<nat>, r: Sweep)
    requires Has(s.store.descs, a)
  {
    && r.kept == s.kept + WithAck(s.store.descs, a, false) + ([phys] + b)
    && r.store.free == s.store.free + WithAck(s.store.descs, a, true)
    && r.completionPending == (s.completionPending && b != [])
  }

  /** ... and what is retired: every transaction up to `phys`, none after. */
  ghost predicate SweptWork(s: Sweep, done: seq<nat>, r: Sweep)
    requires Has(s.store.descs, done)
  {
    && r.store.descs == Retired(s.store.descs, done)
    && r.active == s.active - Load(s.store.descs, done)
    && r.completedCookie == LastCookie(s.store.descs, done, s.completedCookie)
  }

  /** The state after the loop body has dealt with `d`. */
  function Passed(s: Sweep, d: nat): Sweep
    requires d in s.store.descs
  {
    var s1 := Retire(s, d);
    if s1.store.descs[d].acked then s1.(store := s1.store.(free := s1.store.free + [d]))
    else s1.(kept := s1.kept + [d])
  }

  lemma RetireOne(s: Sweep, d: nat, l: seq<nat>)
    requires d in s.store.descs && Has(s.store.descs, l) && d !in l
    ensures Retire(s, d).store.descs == Retired(s.store.descs, [d])
    ensures Passed(s, d).store.descs == Retired(s.store.descs, [d])
    ensures SameFor(Retired(s.store.descs, [d]), s.store.descs, l)
  {}

  lemma RetiredTwice(descs: map<nat, Desc>, d: nat, l: seq<nat>)
    ensures Retired(Retired(descs, [d]), l) == Retired(descs, [d] + l)
  {}

  lemma SweepStopsAt(s: Sweep, phys: nat, b: seq<nat>)
    requires Has(s.store.descs, [phys] + b)
    ensures SweptLists(s, [], phys, b, SweepFrom(s, [phys] + b, phys))
  {}

  /** Before it reaches `phys`, the loop deals with one entry and goes on. */
  lemma SweepPasses(s: Sweep, a: seq<nat>, phys: nat, b: seq<nat>)
    requires a != [] && Has(s.store.descs, a + ([phys] + b)) && NoDup(a + [phys])
    ensures a[0] in s.store.descs && a[0] !in a[1..] && NoDup(a[1..] + [phys])
    ensures Has(Passed(s, a[0]).store.descs, a[1..] + ([phys] + b)) && Has(s.store.descs, a[1..])
    ensures SweepFrom(s, a + ([phys] + b), phys)
            == SweepFrom(Passed(s, a[0]), a[1..] + ([phys] + b), phys)
  {
    var l := a + ([phys] + b);
    HeadTail(a, phys, b);
    hide NoDup;
    assert forall i :: 0 <= i < |l[1..]| ==> l[1..][i] == l[i + 1];
    assert forall i :: 0 <= i < |a[1..]| ==> a[1..][i] == l[i + 1];
  }

  lemma {:induction false} SweepLists(s: Sweep, a: seq<nat>, phys: nat, b: seq<nat>)
    requires Has(s.store.descs, a + ([phys] + b)) && NoDup(a + [phys])
    ensures Has(s.store.descs, a)
    ensures SweptLists(s, a, phys, b, SweepFrom(s, a + ([phys] + b), phys))
    decreases |a|
  {
    hide NoDup, SweepFrom, WithAck, SweptLists, Retire;
    assert forall i :: 0 <= i < |a| ==> a[i] == (a + ([phys] + b))[i];
    if a == [] {
      assert a + ([phys] + b) == [phys] + b;
      SweepStopsAt(s, phys, b);
    } else {
      SweepPasses(s, a, phys, b);
      SweepLists(Passed(s, a[0]), a[1..], phys, b);
      ListsJoin(s, a[0], a[1..], phys, b, SweepFrom(s, a + ([phys] + b), phys));
      assert a == [a[0]] + a[1..];
    }
  }

  lemma ListsJoin(s: Sweep, d: nat, a: seq<nat>, phys: nat, b: seq<nat>, r: Sweep)
    requires d in s.store.descs && Has(s.store.descs, a) && d !in a
    requires SweptLists(Passed(s, d), a, phys, b, r)
    ensures SweptLists(s, [d] + a, phys, b, r)
  {
    RetireOne(s, d, a);
    SameAck(Retired(s.store.descs, [d]), s.store.descs, a, true);
    SameAck(Retired(s.store.descs, [d]), s.store.descs, a, false);
    AckCons(s.store.descs, d, a, true);
    AckCons(s.store.descs, d, a, false);
    hide WithAck, SameFor, Retired;
    Assoc(s.store.free, [d], WithAck(s.store.descs, a, true));
    Assoc(s.kept, [d], WithAck(s.store.descs, a, false));
  }

  lemma Assoc(x: seq<nat>, y: seq<nat>, z: seq<nat>)
    ensures (x + y) + z == x + (y + z) && x + ([] + z) == x + z
  {}

  lemma AckCons(descs: map<nat, Desc>, d: nat, l: seq<nat>, b: bool)
    requires d in descs && Has(descs, l)
    ensures WithAck(descs, [d] + l, b) == (if descs[d].acked == b then [d] else []) + WithAck(descs, l, b)
  {
    assert ([d] + l)[1..] == l;
  }

  lemma HeadTail(a: seq<nat>, phys: nat, b: seq<nat>)
    requires a != [] && NoDup(a + [phys])
    ensures (a + ([phys] + b))[0] == a[0] && (a + ([phys] + b))[1..] == a[1..] + ([phys] + b)
    ensures a[0] != phys && a[0] !in a[1..] && a[0] !in a[1..] + [phys] && NoDup(a[1..] + [phys])
  {
    var l := a + [phys];
    assert l[0] == a[0] && l[|a|] == phys;
    assert a[1..] + [phys] == l[1..];
    assert forall i :: 0 <= i < |a[1..]| ==> a[1..][i] == l[i + 1];
  }

  lemma {:induction false} SweepWork(s: Sweep, a: seq<nat>, phys: nat, b: seq<nat>)
    requires Has(s.store.descs, a + ([phys] + b)) && NoDup(a + [phys])
    ensures Has(s.store.descs, a + [phys])
    ensures SweptWork(s, a + [phys], SweepFrom(s, a + ([phys] + b), phys))
    decreases |a|
  {
    var l := a + ([phys] + b);
    assert forall i :: 0 <= i < |a + [phys]| ==> (a + [phys])[i] == l[i];
    if a == [] {
      assert l == [phys] + b && a + [phys] == [phys];
      assert SweepFrom(s, l, phys).store.descs == Retire(s, phys).store.descs;
      RetireOne(s, phys, []);
    } else {
      var d, a' := a[0], a[1..];
      HeadTail(a, phys, b);
      SweepWork(Passed(s, d), a', phys, b);
      assert a + [phys] == [d] + (a' + [phys]);
      assert forall i :: 0 <= i < |a' + [phys]| ==> (a' + [phys])[i] == l[i + 1];
      WorkJoin(s, d, a' + [phys], SweepFrom(s, l, phys));
    }
  }

  lemma WorkJoin(s: Sweep, d: nat, l: seq<nat>, r: Sweep)
    requires d in s.store.descs && Has(s.store.descs, l) && d !in l
    requires SweptWork(Passed(s, d), l, r)
    ensures SweptWork(s, [d] + l, r)
  {
    RetireOne(s, d, l);
    SamePend(Retired(s.store.descs, [d]), s.store.descs, l);
    SameLastCookie(Retired(s.store.descs, [d]), s.store.descs, l, Passed(s, d).completedCookie);
    RetiredTwice(s.store.descs, d, l);
    assert ([d] + l)[1..] == l;
  }
}
