/**
 A cleanup sweep of an I/OAT channel keeps the invariant.
 */
module IoatCleanup {
  import opened DmaCookies
  import opened Memcpy
  import opened IoatCore
  import opened IoatSweep
  import opened IoatRun
  import opened IoatProof

  /** The used list, cut at the entry where a sweep stops. */
  ghost predicate Cut(ch: Chained, used: seq<nat>, k: nat, a: seq<nat>, phys: nat, b: seq<nat>) {
    && k < |ch.live| && phys == ch.live[k] && b == ch.live[k + 1..]
    && a == ch.stale + ch.live[..k] && used == ch.stale + ch.live
    && used == a + ([phys] + b) && ch.live[k..] == [phys] + b
    && used[..|ch.stale| + k] == a && used[..|ch.stale| + k + 1] == a + [phys]
  }

  lemma CutIs(ch: Chained, used: seq<nat>, k: nat)
    requires used == ch.stale + ch.live && k < |ch.live|
    ensures |ch.stale| + k < |used|
    ensures Cut(ch, used, k, ch.stale + ch.live[..k], ch.live[k], ch.live[k + 1..])
  {}

  lemma {:induction false} AckNoDup(descs: map<nat, Desc>, l: seq<nat>, f: bool)
    requires Has(descs, l) && NoDup(l)
    ensures NoDup(WithAck(descs, l, f))
    ensures forall d :: d in WithAck(descs, l, f) <==> d in l && d in descs && descs[d].acked == f
  {
    forall d ensures d in WithAck(descs, l, f) <==> d in l && d in descs && descs[d].acked == f {
      AckMembers(descs, l, f, d);
    }
    if l != [] {
      AckNoDup(descs, l[1..], f);
      assert l[0] !in l[1..];
      var r := WithAck(descs, l[1..], f);
      assert l[0] !in r;
    }
  }

  lemma SweepOwned(owner: map<nat, Place>, st: Store, st': Store, used: seq<nat>, used': seq<nat>,
                   prepared: map<nat, seq<nat>>, stay: seq<nat>, go: seq<nat>, rest: seq<nat>)
    requires Owned(owner, st, used, prepared)
    requires NoDup(stay) && NoDup(go) && NoDup(rest)
    requires forall d :: d in used <==> d in stay || d in go || d in rest
    requires forall d :: d in stay ==> d !in go && d !in rest
    requires forall d :: d in go ==> d !in rest
    requires used' == stay + rest && st'.free == st.free + go
    requires forall d :: d in st'.descs <==> d in st.descs
    ensures Owned(Moved(owner, go, InFree), st', used', prepared)
  {
    MovedIs(owner, go, InFree);
    hide Moved, NoDup;
    assert OwnedChains(Moved(owner, go, InFree), prepared);
    hide OwnedChains;
    NoDupAppend(stay, rest);
    NoDupAppend(st.free, go);
  }

  lemma CutMembers(descs: map<nat, Desc>, used: seq<nat>, a: seq<nat>, rest: seq<nat>)
    requires used == a + rest && NoDup(used) && Has(descs, a)
    ensures var stay, go := WithAck(descs, a, false), WithAck(descs, a, true);
            && NoDup(stay) && NoDup(go) && NoDup(rest)
            && (forall d :: d in used <==> d in stay || d in go || d in rest)
            && (forall d :: d in stay ==> d !in go && d !in rest && d in a)
            && (forall d :: d in go ==> d !in rest && d in a)
  {
    NoDupParts(a, rest);
    AckNoDup(descs, a, false);
    AckNoDup(descs, a, true);
    hide NoDup, WithAck;
    forall d | d in a ensures d in descs {
      var i :| 0 <= i < |a| && a[i] == d;
    }
  }

  lemma RetiredQuiet(descs: map<nat, Desc>, done: seq<nat>, l: seq<nat>)
    requires Has(descs, l)
    requires forall d :: d in l ==> d in done || (d in descs && descs[d].cookie == 0)
    ensures NoCookies(Retired(descs, done), l)
  {
    assert forall i :: 0 <= i < |l| ==> l[i] in l;
  }

  lemma RetiredChain(descs: map<nat, Desc>, done: seq<nat>, l: seq<nat>, ps: seq<Piece>, k: nat)
    requires ChainFilled(descs, l, ps) && k < |l|
    ensures ChainFilled(Retired(descs, done), l[k..], ps[k..])
  {
    var b, m := Retired(descs, done), l[k..];
    forall i | 0 <= i < |m| ensures m[i] in b && LinkedAt(b, m, i) && PieceOf(b[m[i]]) == ps[k..][i] {
      assert m[i] == l[k + i] && LinkedAt(descs, l, k + i);
    }
  }

  lemma SweepUsed(descs: map<nat, Desc>, used: seq<nat>, used': seq<nat>, ch: Chained, ch': Chained,
                  k: nat, a: seq<nat>, phys: nat, b: seq<nat>)
    requires UsedOk(descs, used, ch) && Cut(ch, used, k, a, phys, b) && Has(descs, a)
    requires ch' == ch.(stale := WithAck(descs, a, false), live := ch.live[k..], front := ch.front + k,
                        completed := ch'.completed)
    requires used' == ch'.stale + ch'.live
    requires Has(descs, ch'.stale) && forall d :: d in ch'.stale ==> d in a
    ensures UsedOk(Retired(descs, a + [phys]), used', ch')
  {
    hide ChainFilled, WithAck, NoCookies;
    RetiredQuiet(descs, a + [phys], ch'.stale);
    RetiredChain(descs, a + [phys], ch.live, ch.pieces[ch.front..], k);
    assert ch.pieces[ch.front..][k..] == ch.pieces[ch.front + k..];
  }

  lemma SweepReports(completion: nat, last: nat, hw: Device, holder: Holder, ch: Chained, ch': Chained,
                     dv: Walked, k: nat)
    requires ReportsOk(completion, last, hw, holder, ch, dv) && completion != 0
    requires k < |ch.live| && ch.front + k <= dv.reportedAt
    requires ch'.live == ch.live[k..] && ch'.front == ch.front + k && ch.live[k] != 0
    ensures ReportsOk(completion, ch.live[k], hw, Unlocked, ch', dv)
  {}

  lemma {:induction false} TailsSuffix(txs: seq<Tx>, m: nat)
    requires m <= |txs|
    ensures Tails(txs)[m..] == Tails(txs[m..])
  {}

  /** The cookies swept up are the oldest ones; those left are the rest, in order. */
  lemma SweepPend(descs: map<nat, Desc>, used: seq<nat>, ch: Chained, a: seq<nat>, phys: nat, b: seq<nat>, k: nat)
    requires UsedOk(descs, used, ch) && FifoOk(descs, ch) && Cut(ch, used, k, a, phys, b)
    requires Has(descs, used) && Has(descs, a + [phys]) && Has(descs, b)
    ensures var m := |Pend(descs, a + [phys])|;
            && ch.completed + m <= |ch.txs|
            && Pend(descs, a + [phys]) == Tails(ch.txs[ch.completed..])[..m]
            && Pend(descs, b) == Tails(ch.txs[ch.completed + m..])
  {
    hide UsedOk, FifoOk, Cut, Has, Pend, Tails;
    PendAll(descs, used, ch, a, phys, b, k);
    TailsParts(Pend(descs, a + [phys]), Pend(descs, b), ch.txs, ch.completed);
  }

  /** Two lists that make up the tails from `c` on. */
  lemma TailsParts(p: seq<nat>, q: seq<nat>, txs: seq<Tx>, c: nat)
    requires c <= |txs| && p + q == Tails(txs[c..])
    ensures c + |p| <= |txs| && p == Tails(txs[c..])[..|p|] && q == Tails(txs[c + |p|..])
  {
    hide Tails;
    assert |p + q| == |txs| - c;
    TailsSuffix(txs[c..], |p|);
    assert txs[c..][|p|..] == txs[c + |p|..];
    assert q == (p + q)[|p|..];
  }

  lemma PendAll(descs: map<nat, Desc>, used: seq<nat>, ch: Chained, a: seq<nat>, phys: nat, b: seq<nat>, k: nat)
    requires UsedOk(descs, used, ch) && FifoOk(descs, ch) && Cut(ch, used, k, a, phys, b)
    requires Has(descs, used) && Has(descs, a + [phys]) && Has(descs, b)
    ensures ch.completed <= |ch.txs|
    ensures Pend(descs, a + [phys]) + Pend(descs, b) == Tails(ch.txs[ch.completed..])
  {
    hide ChainFilled, Pend, Tails, PendingAt;
    assert used == (a + [phys]) + b;
    PendAppend(descs, a + [phys], b);
    LoadNone(descs, ch.stale);
    PendAppend(descs, ch.stale, ch.live);
    assert [] + Pend(descs, ch.live) == Pend(descs, ch.live);
  }

  /** A transaction still pending has its tail at the position it was given. */
  lemma PendingSide(descs: map<nat, Desc>, used: seq<nat>, ch: Chained, a: seq<nat>, phys: nat, b: seq<nat>,
                    k: nat, n: nat)
    requires FifoOk(descs, ch) && Cut(ch, used, k, a, phys, b) && NoDup(used)
    requires ch.completed <= n < |ch.txs|
    ensures ch.txs[n].tail in b ==> ch.front + k < ch.txs[n].last
    ensures ch.txs[n].tail in a + [phys] ==> ch.txs[n].last <= ch.front + k
  {
    hide Pend, Tails;
    assert PendingAt(descs, ch, n);
    var t := ch.txs[n];
    NoDupParts(ch.stale, ch.live);
    var j := t.last - ch.front;
    if j <= k {
      assert t.tail !in b by {
        forall i | 0 <= i < |b| ensures b[i] != t.tail { assert b[i] == ch.live[k + 1 + i]; }
      }
    } else {
      assert t.tail !in a + [phys] by {
        forall i | 0 <= i < |a| ensures a[i] != t.tail {
          if i >= |ch.stale| { assert a[i] == ch.live[i - |ch.stale|]; }
          else { assert a[i] == ch.stale[i]; }
        }
      }
    }
  }

  /** After the sweep, `[phys] + b` carries the cookies that `b` carried. */
  lemma SweepFifoPend(descs: map<nat, Desc>, used: seq<nat>, a: seq<nat>, phys: nat, b: seq<nat>)
    requires used == a + ([phys] + b) && NoDup(used) && Has(descs, a + [phys]) && Has(descs, b)
    ensures var r := Retired(descs, a + [phys]);
            && Has(r, [phys] + b) && Pend(r, [phys] + b) == Pend(descs, b)
            && Load(r, [phys] + b) == Load(descs, b)
            && SameLoad(descs, r, b)
  {
    var r := Retired(descs, a + [phys]);
    assert (a + [phys])[|a|] == phys;
    assert used == (a + [phys]) + b;
    NoDupParts(a + [phys], b);
    assert forall i :: 0 <= i < |b| ==> b[i] in b;
    SamePend(descs, r, b);
    assert ([phys] + b)[1..] == b;
  }

  lemma TailLeft(descs: map<nat, Desc>, used: seq<nat>, ch: Chained, ch': Chained, a: seq<nat>, phys: nat,
                 b: seq<nat>, k: nat, n: nat)
    requires FifoOk(descs, ch) && Cut(ch, used, k, a, phys, b) && NoDup(used)
    requires ch'.live == ch.live[k..] && ch'.front == ch.front + k && ch'.txs == ch.txs
    requires ch.completed <= n < |ch.txs| && ch.txs[n].tail in b
    requires SameLoad(descs, Retired(descs, a + [phys]), b)
    ensures PendingAt(Retired(descs, a + [phys]), ch', n)
  {
    hide Pend, Tails;
    PendingSide(descs, used, ch, a, phys, b, k, n);
    assert PendingAt(descs, ch, n);
    var t := ch.txs[n].tail;
    var i :| 0 <= i < |b| && b[i] == t;
    hide NoDup, Cut;
  }

  /** `m` transactions were swept up: their tails are the cookies on `done`, the others those on `b`. */
  ghost predicate SweptTxs(descs: map<nat, Desc>, ch: Chained, done: seq<nat>, b: seq<nat>, m: nat) {
    && Has(descs, done) && Has(descs, b) && ch.completed + m <= |ch.txs|
    && |Pend(descs, done)| == m
    && Pend(descs, done) == Tails(ch.txs[ch.completed..])[..m]
    && Pend(descs, b) == Tails(ch.txs[ch.completed + m..])
  }

  lemma SweptSide(descs: map<nat, Desc>, ch: Chained, done: seq<nat>, b: seq<nat>, m: nat, n: nat)
    requires SweptTxs(descs, ch, done, b, m) && ch.completed <= n < |ch.txs|
    ensures n < ch.completed + m ==> ch.txs[n].tail in done
    ensures n >= ch.completed + m ==> ch.txs[n].tail in b
  {
    var t := ch.txs[n].tail;
    if n < ch.completed + m {
      assert t == Tails(ch.txs[ch.completed..])[n - ch.completed] == Pend(descs, done)[n - ch.completed];
      PendMembers(descs, done, t);
    } else {
      assert t == Tails(ch.txs[ch.completed + m..])[n - (ch.completed + m)];
      PendMembers(descs, b, t);
    }
  }

  lemma SweepFifo(descs: map<nat, Desc>, used: seq<nat>, ch: Chained, ch': Chained, a: seq<nat>, phys: nat,
                  b: seq<nat>, k: nat)
    requires UsedOk(descs, used, ch) && FifoOk(descs, ch) && Cut(ch, used, k, a, phys, b) && NoDup(used)
    requires Has(descs, used) && Has(descs, a + [phys]) && Has(descs, b)
    requires ch'.live == ch.live[k..] && ch'.front == ch.front + k && ch'.txs == ch.txs
    requires ch'.completed == ch.completed + |Pend(descs, a + [phys])|
    ensures FifoOk(Retired(descs, a + [phys]), ch')
  {
    hide UsedOk, Has, NoDup, Retired, Tails, PendingAt, SameLoad;
    SweepPend(descs, used, ch, a, phys, b, k);
    SweepFifoPend(descs, used, a, phys, b);
    var m := |Pend(descs, a + [phys])|;
    assert SweptTxs(descs, ch, a + [phys], b, m);
    hide Pend, SweptTxs;
    forall n | ch'.completed <= n < |ch'.txs| ensures PendingAt(Retired(descs, a + [phys]), ch', n) {
      SweptSide(descs, ch, a + [phys], b, m, n);
      TailLeft(descs, used, ch, ch', a, phys, b, k, n);
    }
    forall n | 0 <= n < ch'.completed ensures ch'.txs[n].last <= ch'.front {
      if n >= ch.completed {
        SweptSide(descs, ch, a + [phys], b, m, n);
        PendingSide(descs, used, ch, a, phys, b, k, n);
      }
    }
  }

  lemma SweepCookie(descs: map<nat, Desc>, used: seq<nat>, ch: Chained, a: seq<nat>, phys: nat, b: seq<nat>,
                    k: nat, c: nat)
    requires UsedOk(descs, used, ch) && FifoOk(descs, ch) && Cut(ch, used, k, a, phys, b)
    requires Has(descs, used) && Has(descs, a + [phys]) && Has(descs, b)
    requires c == CookieOf(ch.completed)
    ensures LastCookie(descs, a + [phys], c) == CookieOf(ch.completed + |Pend(descs, a + [phys])|)
  {
    hide UsedOk, Has, Pend, Tails, LastCookie, Cut;
    SweepPend(descs, used, ch, a, phys, b, k);
    LastCookieIsLast(descs, a + [phys], c);
    var p := Pend(descs, a + [phys]);
    if p != [] { CookieOfTail(descs, ch, p); }
  }

  /** The last of the first pending tails carries the cookie of its transaction. */
  lemma CookieOfTail(descs: map<nat, Desc>, ch: Chained, p: seq<nat>)
    requires FifoOk(descs, ch) && p != [] && p <= Tails(ch.txs[ch.completed..])
    ensures Last(p) in descs && descs[Last(p)].cookie == CookieOf(ch.completed + |p|)
  {
    hide Tails;
    var n := ch.completed + |p| - 1;
    assert Last(p) == Tails(ch.txs[ch.completed..])[|p| - 1] == ch.txs[n].tail;
    assert PendingAt(descs, ch, n);
  }

  lemma SweepAccount(descs: map<nat, Desc>, used: seq<nat>, used': seq<nat>, a: seq<nat>, phys: nat,
                     b: seq<nat>, stay: seq<nat>, active: int, pending: bool)
    requires Accounted(active, pending, descs, used) && used == a + ([phys] + b) && NoDup(used)
    requires used' == stay + ([phys] + b) && NoCookies(Retired(descs, a + [phys]), stay)
    requires Has(descs, a + [phys]) && Has(descs, b)
    ensures Accounted(active - Load(descs, a + [phys]), pending && b != [], Retired(descs, a + [phys]), used')
  {
    var r := Retired(descs, a + [phys]);
    SweepFifoPend(descs, used, a, phys, b);
    assert used == (a + [phys]) + b;
    PendAppend(descs, a + [phys], b);
    LoadNone(r, stay);
    PendAppend(r, stay, [phys] + b);
  }

  // ----- putting a sweep together

  /** `c` is the channel as the sweep finds it: at most the preamble has touched it. */
  predicate Entered(w: World, c: Core) {
    c == w.core.(completionAck := c.completionAck, timerArmed := c.timerArmed)
  }

  lemma SweepCore(c: Core, ch: Chained, k: nat, a: seq<nat>, phys: nat, b: seq<nat>)
    requires Cut(ch, c.used, k, a, phys, b) && Has(c.store.descs, c.used) && NoDup(c.used)
    ensures Has(c.store.descs, a) && Has(c.store.descs, a + [phys]) && Has(c.store.descs, b)
    ensures var r := Cleanup(c, phys);
            && r.store.descs == Retired(c.store.descs, a + [phys])
            && r.store.free == c.store.free + WithAck(c.store.descs, a, true)
            && r.used == WithAck(c.store.descs, a, false) + ([phys] + b)
            && r.active == c.active - Load(c.store.descs, a + [phys])
            && r.completedCookie == LastCookie(c.store.descs, a + [phys], c.completedCookie)
            && r.completionPending == (c.completionPending && b != [])
            && r == c.(store := r.store, used := r.used, completedCookie := r.completedCookie,
                       active := r.active, completionPending := r.completionPending, lastCompletion := phys)
  {
    var s := Sweep(c.store, [], c.completedCookie, c.active, c.completionPending);
    CutParts(c.store.descs, ch, c.used, k, a, phys, b);
    SweepLists(s, a, phys, b);
    SweepWork(s, a, phys, b);
    hide SweepFrom, WithAck, Load, LastCookie, Retired, NoDup;
    assert [] + WithAck(c.store.descs, a, false) == WithAck(c.store.descs, a, false);
  }

  lemma CutParts(descs: map<nat, Desc>, ch: Chained, used: seq<nat>, k: nat, a: seq<nat>, phys: nat, b: seq<nat>)
    requires Cut(ch, used, k, a, phys, b) && Has(descs, used) && NoDup(used)
    ensures Has(descs, a) && Has(descs, a + [phys]) && Has(descs, b) && NoDup(a + [phys])
    ensures phys in used
  {
    assert used == (a + [phys]) + b;
    hide Cut;
    NoDupParts(a + [phys], b);
    HasParts(descs, a + [phys], b);
    HasParts(descs, a, [phys]);
    assert used[|a|] == phys;
  }

  lemma HasParts(descs: map<nat, Desc>, a: seq<nat>, b: seq<nat>)
    requires Has(descs, a + b)
    ensures Has(descs, a) && Has(descs, b)
  {
    assert forall i :: 0 <= i < |a| ==> a[i] == (a + b)[i];
    assert forall i :: 0 <= i < |b| ==> b[i] == (a + b)[|a| + i];
  }

  lemma SweepLists1(w: World, c: Core, k: nat, a: seq<nat>, phys: nat, b: seq<nat>)
    requires Inv(w) && Entered(w, c) && Cut(w.h.ch, w.core.used, k, a, phys, b)
    requires Has(w.core.store.descs, a) && Has(w.core.store.descs, w.core.used)
    ensures var r := Cleanup(c, phys);
            && Owned(Moved(w.h.owner, WithAck(w.core.store.descs, a, true), InFree), r.store, r.used, r.prepared)
            && NoCookies(r.store.descs, r.store.free)
            && ChainsOk(r.store.descs, r.prepared, w.h.orders, w.core.xfercap)
            && NoCookies(r.store.descs, WithAck(w.core.store.descs, a, false))
            && (forall d :: d in WithAck(w.core.store.descs, a, false) ==> d in a)
            && Has(w.core.store.descs, WithAck(w.core.store.descs, a, false))
  {
    hide ReportsOk, TxsOk, FifoOk, LogOk, Accounted, ChainsOk, UsedOk, Cleanup, NoDup, WithAck;
    var descs := w.core.store.descs;
    var r := Cleanup(c, phys);
    assert Owned(w.h.owner, w.core.store, w.core.used, w.core.prepared);
    SweepCore(c, w.h.ch, k, a, phys, b);
    hide Load, LastCookie;
    CutMembers(descs, w.core.used, a, [phys] + b);
    SweepOwned(w.h.owner, w.core.store, r.store, w.core.used, r.used, w.core.prepared,
               WithAck(descs, a, false), WithAck(descs, a, true), [phys] + b);
    SweepQuiet(w.core.store, a, phys);
    DoneInUsed(w.core.used, a, phys, b);
    SameChains(w.core.store, r.store.descs, w.h.owner, w.core.used, w.core.prepared, w.h.orders, w.core.xfercap);
  }

  lemma DoneInUsed(used: seq<nat>, a: seq<nat>, phys: nat, b: seq<nat>)
    requires used == a + ([phys] + b)
    ensures forall d :: d in a + [phys] ==> d in used
  {}

  lemma SweepQuiet(st: Store, a: seq<nat>, phys: nat)
    requires Has(st.descs, a) && NoCookies(st.descs, st.free)
    ensures NoCookies(Retired(st.descs, a + [phys]), st.free + WithAck(st.descs, a, true))
    ensures NoCookies(Retired(st.descs, a + [phys]), WithAck(st.descs, a, false))
    ensures Has(st.descs, WithAck(st.descs, a, false))
  {
    forall f, d | d in WithAck(st.descs, a, f) ensures d in a && d in st.descs {
      AckMembers(st.descs, a, f, d);
    }
    hide WithAck;
    var go, stay := WithAck(st.descs, a, true), WithAck(st.descs, a, false);
    assert forall i :: 0 <= i < |go| ==> go[i] in go;
    assert forall i :: 0 <= i < |stay| ==> stay[i] in stay;
    RetiredQuiet(st.descs, a + [phys], stay);
    RetiredQuiet(st.descs, a + [phys], go);
    RetiredQuiet(st.descs, a + [phys], st.free);
  }

  /** AfterSweep, written with the cut. */
  lemma AfterSweepIs(w: World, r: Core, at: nat, k: nat, a: seq<nat>, phys: nat, b: seq<nat>)
    requires Sane(w) && w.h.ch.front <= at && k == at - w.h.ch.front < |w.h.ch.live|
    requires Cut(w.h.ch, w.core.used, k, a, phys, b)
    requires Has(w.core.store.descs, a) && Has(w.core.store.descs, a + [phys])
    ensures AfterSweep(w, r, at)
            == w.(core := r, holder := Unlocked,
                  h := w.h.(owner := Moved(w.h.owner, WithAck(w.core.store.descs, a, true), InFree),
                            ch := SweptChain(w.core.store.descs, w.h.ch, k, a, phys)))
  {}

  function SweptChain(descs: map<nat, Desc>, ch: Chained, k: nat, a: seq<nat>, phys: nat): Chained
    requires k <= |ch.live| && Has(descs, a) && Has(descs, a + [phys])
  {
    ch.(stale := WithAck(descs, a, false), live := ch.live[k..], front := ch.front + k,
        completed := ch.completed + |Pend(descs, a + [phys])|)
  }

  lemma SweepChain(w: World, c: Core, k: nat, a: seq<nat>, phys: nat, b: seq<nat>)
    requires Inv(w) && Entered(w, c) && w.core.completion != 0
    requires Cut(w.h.ch, w.core.used, k, a, phys, b) && w.h.ch.front + k <= w.h.dv.reportedAt
    requires Has(w.core.store.descs, w.core.used) && Has(w.core.store.descs, a)
    requires Has(w.core.store.descs, a + [phys]) && Has(w.core.store.descs, b)
    ensures var r, ch' := Cleanup(c, phys), SweptChain(w.core.store.descs, w.h.ch, k, a, phys);
            && UsedOk(r.store.descs, r.used, ch')
            && ReportsOk(r.completion, r.lastCompletion, w.hw, Unlocked, ch', w.h.dv)
            && FifoOk(r.store.descs, ch') && CookiesOk(r, ch')
            && Accounted(r.active, r.completionPending, r.store.descs, r.used)
  {
    hide Owned, NoCookies, ChainsOk, UsedOk, ReportsOk, TxsOk, FifoOk, LogOk, Accounted, NoDup,
         WithAck, Pend, Load, LastCookie, Retired, Cleanup, Moved;
    var ch, used, descs := w.h.ch, w.core.used, w.core.store.descs;
    var ch' := SweptChain(descs, ch, k, a, phys);
    UsedFacts(w);
    SweepCore(c, ch, k, a, phys, b);
    SweepLists1(w, c, k, a, phys, b);
    var r := Cleanup(c, phys);
    SweepUsed(descs, used, r.used, ch, ch', k, a, phys, b);
    SweepReports(w.core.completion, w.core.lastCompletion, w.hw, w.holder, ch, ch', w.h.dv, k);
    SweepFifo(descs, used, ch, ch', a, phys, b, k);
    SweepCookie(descs, used, ch, a, phys, b, k, w.core.completedCookie);
    SweepAccount(descs, used, r.used, a, phys, b, WithAck(descs, a, false), w.core.active, w.core.completionPending);
  }

  lemma SweepInv(w: World, c: Core, at: nat)
    requires Inv(w) && Sane(w) && Entered(w, c) && w.core.completion != 0
    requires w.h.ch.front <= at <= w.h.dv.reportedAt && at - w.h.ch.front < |w.h.ch.live|
    requires Watched(c, w.handlers, Unlocked)
    ensures Inv(AfterSweep(w, Cleanup(c, w.h.ch.live[at - w.h.ch.front]), at))
  {
    hide Owned, NoCookies, ChainsOk, UsedOk, ReportsOk, TxsOk, FifoOk, LogOk, Accounted, NoDup,
         WithAck, Pend, Load, LastCookie, Retired, Moved, AfterSweep, Cleanup, CookiesOk;
    var ch, k, used, descs := w.h.ch, at - w.h.ch.front, w.core.used, w.core.store.descs;
    CutIs(ch, used, k);
    var a, phys, b := ch.stale + ch.live[..k], ch.live[k], ch.live[k + 1..];
    UsedFacts(w);
    CutParts(descs, ch, used, k, a, phys, b);
    SweepCore(c, ch, k, a, phys, b);
    hide Cut;
    AfterSweepIs(w, Cleanup(c, phys), at, k, a, phys, b);
    SweepLists1(w, c, k, a, phys, b);
    SweepChain(w, c, k, a, phys, b);
  }

  lemma UsedFacts(w: World)
    requires Inv(w)
    ensures NoDup(w.core.used) && Has(w.core.store.descs, w.core.used)
    ensures forall i :: 0 <= i < |w.h.ch.live| ==> w.h.ch.live[i] != 0
  {
    hide ReportsOk, TxsOk, FifoOk, LogOk, ChainsOk, NoCookies, ChainFilled, NoDup;
    assert forall i :: 0 <= i < |w.h.ch.live| ==> w.h.ch.live[i] == w.core.used[|w.h.ch.stale| + i];
  }
}
