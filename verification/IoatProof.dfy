/**
 Every step of an I/OAT channel keeps the invariant.
 */
module IoatProof {
  import opened DmaCookies
  import opened Memcpy
  import opened IoatCore
  import opened IoatSweep
  import opened IoatRun

  // ----- steps that leave the lists alone

  /** The device stays on the chain: the next word it reads is 0 or the next live entry. */
  lemma DeviceStaysOnChain(w: World)
    requires Inv(w)
    ensures var k := w.h.dv.hwAt - w.h.ch.front;
            && 0 <= k < |w.h.ch.live| && w.hw.at == w.h.ch.live[k] && w.hw.at in w.core.store.descs
            && PieceOf(w.core.store.descs[w.hw.at]) == w.h.ch.pieces[w.h.dv.hwAt]
            && w.core.store.descs[w.hw.at].next
               == (if k + 1 < |w.h.ch.live| then w.h.ch.live[k + 1] else 0)
            && 0 !in w.core.store.descs
  {
    hide ChainsOk, TxsOk, FifoOk, NoDup, NoCookies;
    var k := w.h.dv.hwAt - w.h.ch.front;
    assert LinkedAt(w.core.store.descs, w.h.ch.live, k);
  }

  lemma DeviceStepLog(w: World)
    requires Inv(w) && Enabled(w, DeviceStep)
    ensures var w' := Apply(w, DeviceStep);
            && ReportsOk(w'.core.completion, w'.core.lastCompletion, w'.hw, w'.holder, w'.h.ch, w'.h.dv)
            && LogOk(w'.hw, w'.core.completion, w'.h.ch.pieces, w'.h.dv)
  {
    hide Sane, AfterPrep, AfterSubmit, AfterSweep, AfterTimer, Owned, ChainsOk, TxsOk, FifoOk, Accounted;
    DeviceStaysOnChain(w);
    var w' := Apply(w, DeviceStep);
    var ch, n := w.h.ch, w'.h.dv.hwAt;
    assert UsedOk(w.core.store.descs, w.core.used, ch);
    NextPiece(w.core.store.descs, ch, n - ch.front);
    hide ChainFilled, PieceOf, UsedOk;
    assert ch.pieces[..n] + [ch.pieces[n]] == ch.pieces[..n + 1];
  }

  lemma DeviceStepInv(w: World)
    requires Inv(w) && Enabled(w, DeviceStep)
    ensures Inv(Apply(w, DeviceStep))
  {
    DeviceStepLog(w);
    hide Owned, ChainsOk, TxsOk, FifoOk, NoCookies, UsedOk, Accounted, LogOk, ReportsOk, PieceOf;
  }

  lemma NextPiece(descs: map<nat, Desc>, ch: Chained, k: nat)
    requires ch.front + |ch.live| == |ch.pieces| && k < |ch.live|
    requires ChainFilled(descs, ch.live, ch.pieces[ch.front..])
    ensures PieceOf(descs[ch.live[k]]) == ch.pieces[ch.front + k]
  {}

  lemma QuietStepInv(w: World, a: Action)
    requires Inv(w) && Enabled(w, a)
    requires a.DeviceReport? || a.BeginCleanup? || a.AbandonCleanup? || a.TimerFires? || a.TimerEnters?
    ensures Inv(Apply(w, a))
  {
    hide Sane, AfterPrep, AfterSubmit, AfterSweep, AfterTimer, Owned, ChainsOk, TxsOk, FifoOk,
         NoCookies, UsedOk, Accounted;
    DeviceStaysOnChain(w);
  }

  // ----- a client acknowledges a descriptor

  /** Nothing but acknowledge flags differ. */
  ghost predicate SameButAck(a: map<nat, Desc>, b: map<nat, Desc>) {
    && (forall d :: d in a <==> d in b)
    && (forall d :: d in a ==> b[d] == a[d].(acked := b[d].acked) && (a[d].acked ==> b[d].acked))
  }

  lemma AckChain(a: map<nat, Desc>, b: map<nat, Desc>, l: seq<nat>, ps: seq<Piece>)
    requires SameButAck(a, b) && ChainFilled(a, l, ps)
    ensures ChainFilled(b, l, ps)
  {
    forall i | 0 <= i < |l| ensures LinkedAt(b, l, i) && PieceOf(b[l[i]]) == ps[i] {
      assert LinkedAt(a, l, i);
    }
  }

  lemma AckChains(a: map<nat, Desc>, b: map<nat, Desc>, prepared: map<nat, seq<nat>>,
                  orders: map<nat, Piece>, cap: nat)
    requires cap > 0 && SameButAck(a, b) && ChainsOk(a, prepared, orders, cap)
    ensures ChainsOk(b, prepared, orders, cap)
  {
    forall t | t in prepared ensures t in orders && ChainOk(b, prepared[t], t, orders[t], cap) {
      assert ChainOk(a, prepared[t], t, orders[t], cap);
      AckChain(a, b, prepared[t], Split(orders[t], cap));
    }
  }

  lemma AckFifo(a: map<nat, Desc>, b: map<nat, Desc>, ch: Chained)
    requires SameButAck(a, b) && FifoOk(a, ch)
    ensures FifoOk(b, ch)
  {
    SamePend(a, b, ch.live);
    forall n | ch.completed <= n < |ch.txs| ensures PendingAt(b, ch, n) {
      assert PendingAt(a, ch, n);
    }
  }

  lemma AckLists(owner: map<nat, Place>, a: Store, b: Store, used: seq<nat>,
                 prepared: map<nat, seq<nat>>)
    requires SameButAck(a.descs, b.descs) && a.free == b.free
    requires Owned(owner, a, used, prepared) && NoCookies(a.descs, a.free)
    ensures Owned(owner, b, used, prepared) && NoCookies(b.descs, b.free)
  {}

  lemma AckUsed(a: map<nat, Desc>, b: map<nat, Desc>, used: seq<nat>, ch: Chained, active: int,
                pending: bool)
    requires SameButAck(a, b) && UsedOk(a, used, ch) && Accounted(active, pending, a, used)
    ensures UsedOk(b, used, ch) && Accounted(active, pending, b, used)
  {
    AckChain(a, b, ch.live, ch.pieces[ch.front..]);
    SamePend(a, b, used);
  }

  lemma AcknowledgeInv(w: World, d: nat)
    requires Inv(w) && Enabled(w, Acknowledge(d))
    ensures Inv(Apply(w, Acknowledge(d)))
  {
    hide Sane, AfterPrep, AfterSubmit, AfterSweep, AfterTimer, Owned, NoCookies, ChainsOk, UsedOk,
         ReportsOk, TxsOk, FifoOk, LogOk, Accounted;
    var w' := Apply(w, Acknowledge(d));
    var a, b := w.core.store.descs, w'.core.store.descs;
    assert SameButAck(a, b);
    hide SameButAck;
    AckLists(w.h.owner, w.core.store, w'.core.store, w.core.used, w.core.prepared);
    AckChains(a, b, w.core.prepared, w.h.orders, w.core.xfercap);
    AckUsed(a, b, w.core.used, w.h.ch, w.core.active, w.core.completionPending);
    AckFifo(a, b, w.h.ch);
  }

  // ----- submit

  lemma SameChain(a: map<nat, Desc>, b: map<nat, Desc>, l: seq<nat>, ps: seq<Piece>)
    requires ChainFilled(a, l, ps)
    requires forall i :: 0 <= i < |l| ==> l[i] in b && b[l[i]].next == a[l[i]].next
                                          && PieceOf(b[l[i]]) == PieceOf(a[l[i]])
    ensures ChainFilled(b, l, ps)
  {
    forall i | 0 <= i < |l| ensures LinkedAt(b, l, i) {
      assert LinkedAt(a, l, i);
    }
  }

  /** Linking the last entry of one chain to the first of another makes one chain. */
  lemma ChainAppend(a: map<nat, Desc>, b: map<nat, Desc>, l: seq<nat>, ps: seq<Piece>,
                    m: seq<nat>, qs: seq<Piece>)
    requires l != [] && m != []
    requires ChainFilled(a, l, ps) && ChainFilled(b, m, qs) && Has(b, l)
    requires forall i :: 0 <= i < |l| ==> PieceOf(b[l[i]]) == PieceOf(a[l[i]])
    requires forall i :: 0 <= i < |l| - 1 ==> b[l[i]].next == a[l[i]].next
    requires b[Last(l)].next == m[0]
    ensures ChainFilled(b, l + m, ps + qs)
  {
    var all := l + m;
    forall i | 0 <= i < |all| ensures all[i] in b && LinkedAt(b, all, i) && PieceOf(b[all[i]]) == (ps + qs)[i] {
      if i < |l| {
        assert LinkedAt(a, l, i);
      } else {
        assert LinkedAt(b, m, i - |l|);
      }
    }
  }

  /** What submit does to the descriptors: a cookie on `tail`, a link from `end`. */
  ghost predicate Hooked(a: map<nat, Desc>, b: map<nat, Desc>, tail: nat, end: nat, c: nat, first: nat) {
    && tail != end && tail in a && end in a
    && (forall d :: d in b <==> d in a)
    && (forall d :: d in a && d != tail && d != end ==> b[d] == a[d])
    && b[tail] == a[tail].(cookie := c) && b[end] == a[end].(next := first)
  }

  lemma MovedIs(owner: map<nat, Place>, l: seq<nat>, p: Place)
    ensures forall d :: d in Moved(owner, l, p) <==> d in owner || d in l
    ensures forall d :: d in l ==> Moved(owner, l, p)[d] == p
    ensures forall d :: d in owner && d !in l ==> Moved(owner, l, p)[d] == owner[d]
  {}

  lemma NoDupAppend(a: seq<nat>, b: seq<nat>)
    requires NoDup(a) && NoDup(b) && forall d :: d in a ==> d !in b
    ensures NoDup(a + b)
  {
    forall i, j | 0 <= i < j < |a + b| ensures (a + b)[i] != (a + b)[j] {
      if i < |a| <= j {
        assert a[i] in a && b[j - |a|] in b;
      }
    }
  }

  lemma SubmitOwned(owner: map<nat, Place>, a: Store, b: Store, used: seq<nat>,
                    prepared: map<nat, seq<nat>>, tail: nat)
    requires Owned(owner, a, used, prepared) && tail in prepared && NoDup(prepared[tail])
    requires b.free == a.free && (forall d :: d in b.descs <==> d in a.descs)
    ensures Owned(Moved(owner, prepared[tail], InUsed), b, used + prepared[tail], prepared - {tail})
  {
    SubmitOwnedLists(owner, a, b, used, prepared, tail);
    SubmitOwnedChains(owner, prepared, tail);
    hide OwnedLists, OwnedChains;
  }

  lemma SubmitOwnedLists(owner: map<nat, Place>, a: Store, b: Store, used: seq<nat>,
                         prepared: map<nat, seq<nat>>, tail: nat)
    requires Owned(owner, a, used, prepared) && tail in prepared && NoDup(prepared[tail])
    requires b.free == a.free && (forall d :: d in b.descs <==> d in a.descs)
    ensures OwnedLists(Moved(owner, prepared[tail], InUsed), b, used + prepared[tail])
  {
    var chain := prepared[tail];
    NoDupAppend(used, chain);
    MovedIs(owner, chain, InUsed);
    hide Moved, NoDup;
  }

  lemma SubmitOwnedChains(owner: map<nat, Place>, prepared: map<nat, seq<nat>>, tail: nat)
    requires OwnedChains(owner, prepared) && tail in prepared
    ensures OwnedChains(Moved(owner, prepared[tail], InUsed), prepared - {tail})
  {
    MovedIs(owner, prepared[tail], InUsed);
    hide Moved;
  }

  lemma SameChainOk(a: map<nat, Desc>, b: map<nat, Desc>, l: seq<nat>, t: nat, order: Piece, cap: nat)
    requires cap > 0 && ChainOk(a, l, t, order, cap)
    requires forall d :: d in l && d in a ==> d in b && b[d] == a[d]
    ensures ChainOk(b, l, t, order, cap)
  {
    assert forall i :: 0 <= i < |l| ==> l[i] in l;
    SameChain(a, b, l, Split(order, cap));
  }

  /** Prepared chains have no entry in common with each other or with the used list. */
  lemma ChainsApart(owner: map<nat, Place>, st: Store, used: seq<nat>, prepared: map<nat, seq<nat>>,
                    t: nat, u: nat, d: nat)
    requires Owned(owner, st, used, prepared) && t in prepared && d in prepared[t]
    ensures d !in used && d !in st.free && (u in prepared && u != t ==> d !in prepared[u])
  {}

  lemma SubmitChains(a: Store, b: map<nat, Desc>, owner: map<nat, Place>,
                     used: seq<nat>, prepared: map<nat, seq<nat>>, orders: map<nat, Piece>, cap: nat,
                     tail: nat, end: nat, c: nat, first: nat)
    requires cap > 0 && ChainsOk(a.descs, prepared, orders, cap) && Owned(owner, a, used, prepared)
    requires Hooked(a.descs, b, tail, end, c, first) && end in used
    requires tail in prepared && tail in prepared[tail]
    ensures ChainsOk(b, prepared - {tail}, orders, cap)
  {
    hide Owned, ChainOk;
    forall t | t in prepared && t != tail ensures t in orders && ChainOk(b, prepared[t], t, orders[t], cap) {
      forall d | d in prepared[t] && d in a.descs ensures d in b && b[d] == a.descs[d] {
        ChainsApart(owner, a, used, prepared, t, tail, d);
      }
      SameChainOk(a.descs, b, prepared[t], t, orders[t], cap);
    }
  }

  /** The submitted chain itself, after the cookie and the link have been stored. */
  lemma SubmittedChain(a: map<nat, Desc>, b: map<nat, Desc>, chain: seq<nat>, tail: nat, order: Piece,
                       cap: nat, end: nat, c: nat)
    requires cap > 0 && ChainOk(a, chain, tail, order, cap) && c != 0
    requires Hooked(a, b, tail, end, c, chain[0]) && end !in chain
    ensures ChainFilled(b, chain, Split(order, cap)) && |chain| == |Split(order, cap)|
    ensures Has(b, chain) && Pend(b, chain) == [tail] && Load(b, chain) == a[tail].txCnt
  {
    SameChain(a, b, chain, Split(order, cap));
    var front := chain[..|chain| - 1];
    assert chain == front + [tail];
    assert forall i :: 0 <= i < |front| ==> front[i] == chain[i] && front[i] != tail;
    LoadNone(b, front);
    PendAppend(b, front, [tail]);
  }

  lemma LiveHooked(a: map<nat, Desc>, b: map<nat, Desc>, live: seq<nat>, tail: nat, c: nat, first: nat)
    requires live != [] && NoDup(live) && tail !in live && Has(a, live)
    requires Hooked(a, b, tail, Last(live), c, first)
    ensures Has(b, live) && b[Last(live)].next == first
    ensures forall i :: 0 <= i < |live| ==> PieceOf(b[live[i]]) == PieceOf(a[live[i]])
    ensures forall i :: 0 <= i < |live| - 1 ==> b[live[i]].next == a[live[i]].next
  {}

  lemma StaleHooked(a: map<nat, Desc>, b: map<nat, Desc>, stale: seq<nat>, tail: nat, end: nat,
                    c: nat, first: nat)
    requires NoCookies(a, stale) && tail !in stale && Hooked(a, b, tail, end, c, first)
    ensures NoCookies(b, stale)
  {}

  lemma NoDupParts(a: seq<nat>, b: seq<nat>)
    requires NoDup(a + b)
    ensures NoDup(a) && NoDup(b) && forall d :: d in a ==> d !in b
  {
    assert forall i :: 0 <= i < |a| ==> a[i] == (a + b)[i];
    assert forall i :: 0 <= i < |b| ==> b[i] == (a + b)[|a| + i];
  }

  lemma SubmitUsed(a: map<nat, Desc>, b: map<nat, Desc>, used: seq<nat>, ch: Chained, chain: seq<nat>,
                   order: Piece, cap: nat, tail: nat, c: nat)
    requires cap > 0 && UsedOk(a, used, ch) && chain != [] && NoDup(used) && tail !in used
    requires Hooked(a, b, tail, Last(used), c, chain[0])
    requires ChainFilled(b, chain, Split(order, cap)) && |chain| == |Split(order, cap)|
    ensures UsedOk(b, used + chain, ChainMore(ch, chain, order, cap))
  {
    var ps := ch.pieces[ch.front..];
    assert Last(used) == Last(ch.live);
    NoDupParts(ch.stale, ch.live);
    hide Hooked, NoDup, NoCookies;
    StaleHooked(a, b, ch.stale, tail, Last(used), c, chain[0]);
    LiveHooked(a, b, ch.live, tail, c, chain[0]);
    ChainAppend(a, b, ch.live, ps, chain, Split(order, cap));
    hide ChainFilled;
    assert (ch.pieces + Split(order, cap))[ch.front..] == ps + Split(order, cap);
    assert used + chain == ch.stale + (ch.live + chain);
  }

  lemma SubmitTxs(ch: Chained, chain: seq<nat>, order: Piece, cap: nat)
    requires cap > 0 && chain != [] && |chain| == |Split(order, cap)|
    requires TxsOk(ch.txs, ch.pieces, cap)
    ensures TxsOk(ChainMore(ch, chain, order, cap).txs, ChainMore(ch, chain, order, cap).pieces, cap)
  {
    var ch' := ChainMore(ch, chain, order, cap);
    forall n | 0 <= n < |ch'.txs| ensures TxAt(ch'.txs, ch'.pieces, cap, n) {
      if n < |ch.txs| {
        assert TxAt(ch.txs, ch.pieces, cap, n);
        var t := ch.txs[n];
        assert ch'.pieces[t.first..t.last + 1] == ch.pieces[t.first..t.last + 1];
      } else {
        assert ch'.pieces[|ch.pieces|..] == Split(order, cap);
      }
    }
  }

  lemma {:induction false} TailsAppend(a: seq<Tx>, t: Tx)
    ensures Tails(a + [t]) == Tails(a) + [t.tail]
  {}

  lemma SubmitPending(a: map<nat, Desc>, b: map<nat, Desc>, ch: Chained, chain: seq<nat>,
                      order: Piece, cap: nat, end: nat, n: nat)
    requires cap > 0 && chain != [] && ch.front + |ch.live| == |ch.pieces| && ch.live != []
    requires ch.completed <= n < |ch.txs| ==> PendingAt(a, ch, n) && ch.txs[n].tail != Last(chain)
    requires ch.completed <= n <= |ch.txs|
    requires Hooked(a, b, Last(chain), end, CookieOf(|ch.txs| + 1), chain[0])
    requires a[Last(chain)].len == order.len
    ensures PendingAt(b, ChainMore(ch, chain, order, cap), n)
  {}

  lemma PendingTail(descs: map<nat, Desc>, ch: Chained, n: nat, d: nat)
    requires FifoOk(descs, ch) && ch.completed <= n < |ch.txs| && d !in ch.live
    ensures PendingAt(descs, ch, n) && ch.txs[n].tail != d
  {}

  /** The new transaction's tail becomes the last cookie on the chain. */
  lemma SubmitTails(a: map<nat, Desc>, b: map<nat, Desc>, ch: Chained, chain: seq<nat>, t: Tx, end: nat, c: nat)
    requires chain != [] && ch.completed <= |ch.txs| && Has(a, ch.live)
    requires Pend(a, ch.live) == Tails(ch.txs[ch.completed..]) && t.tail !in ch.live
    requires Hooked(a, b, t.tail, end, c, chain[0])
    requires Has(b, chain) && Pend(b, chain) == [t.tail]
    ensures Has(b, ch.live + chain)
    ensures Pend(b, ch.live + chain) == Tails((ch.txs + [t])[ch.completed..])
  {
    SamePend(a, b, ch.live);
    hide Hooked, SameLoad;
    PendAppend(b, ch.live, chain);
    assert (ch.txs + [t])[ch.completed..] == ch.txs[ch.completed..] + [t];
    TailsAppend(ch.txs[ch.completed..], t);
  }

  lemma SubmitFifo(a: map<nat, Desc>, b: map<nat, Desc>, ch: Chained, chain: seq<nat>,
                   order: Piece, cap: nat, end: nat)
    requires cap > 0 && chain != [] && FifoOk(a, ch) && ch.front + |ch.live| == |ch.pieces|
    requires ch.live != [] && Last(chain) !in ch.live
    requires Hooked(a, b, Last(chain), end, CookieOf(|ch.txs| + 1), chain[0])
    requires Has(b, chain) && Pend(b, chain) == [Last(chain)] && a[Last(chain)].len == order.len
    ensures FifoOk(b, ChainMore(ch, chain, order, cap))
  {
    hide Pend, Tails, Hooked, PendingAt, Has, Split;
    var ch' := ChainMore(ch, chain, order, cap);
    SubmitTails(a, b, ch, chain, ch'.txs[|ch.txs|], end, CookieOf(|ch.txs| + 1));
    forall n | ch.completed <= n < |ch'.txs| ensures PendingAt(b, ch', n) {
      if n < |ch.txs| { PendingTail(a, ch, n, Last(chain)); }
      SubmitPending(a, b, ch, chain, order, cap, end, n);
    }
  }

  lemma SubmitLoad(a: map<nat, Desc>, b: map<nat, Desc>, used: seq<nat>, chain: seq<nat>, tail: nat,
                   end: nat, c: nat, first: nat, active: int, pending: bool)
    requires Accounted(active, pending, a, used) && tail !in used
    requires Hooked(a, b, tail, end, c, first)
    requires Has(b, chain) && Load(b, chain) == a[tail].txCnt
    ensures Accounted(active + a[tail].txCnt, true, b, used + chain)
  {
    SamePend(a, b, used);
    PendAppend(b, used, chain);
  }

  lemma SubmitReports(completion: nat, last: nat, hw: Device, holder: Holder, ch: Chained, dv: Walked,
                      chain: seq<nat>, order: Piece, cap: nat)
    requires cap > 0 && chain != [] && ReportsOk(completion, last, hw, holder, ch, dv)
    ensures ReportsOk(completion, last, hw, holder, ChainMore(ch, chain, order, cap), dv)
  {}

  lemma SubmitLog(hw: Device, completion: nat, ch: Chained, dv: Walked, chain: seq<nat>, order: Piece,
                  cap: nat)
    requires cap > 0 && chain != [] && LogOk(hw, completion, ch.pieces, dv)
    ensures LogOk(hw, completion, ChainMore(ch, chain, order, cap).pieces, dv)
  {}

  lemma SubmitApart(owner: map<nat, Place>, st: Store, used: seq<nat>, prepared: map<nat, seq<nat>>,
                    tail: nat)
    requires Owned(owner, st, used, prepared) && tail in prepared && tail in prepared[tail] && used != []
    ensures tail !in used && Last(used) !in prepared[tail] && Last(used) in used && NoDup(used)
    ensures Last(used) in st.descs && tail in st.descs && tail !in st.free
  {
    hide NoDup;
    assert Last(used) in used;
  }

  /** Where the parts of a submit lie. */
  lemma SubmitFacts(w: World, tail: nat)
    requires Inv(w) && tail in w.core.prepared
    ensures var chain, used := w.core.prepared[tail], w.core.used;
            && tail in w.core.store.descs
            && used != [] && chain != [] && tail in chain && Last(chain) == tail && NoDup(chain)
            && tail in w.h.orders && w.core.store.descs[tail].len == w.h.orders[tail].len
            && ChainOk(w.core.store.descs, chain, tail, w.h.orders[tail], w.core.xfercap)
            && tail !in used && Last(used) !in chain && Last(used) in used && NoDup(used)
            && Last(used) in w.core.store.descs
            && tail !in w.core.store.free && tail !in w.h.ch.live
            && w.h.ch.live != [] && w.h.ch.front + |w.h.ch.live| == |w.h.ch.pieces|
  {
    hide TxsOk, FifoOk, ReportsOk, LogOk, Accounted, NoCookies, ChainFilled, Owned, NoDup;
    var chain, used := w.core.prepared[tail], w.core.used;
    assert ChainOk(w.core.store.descs, chain, tail, w.h.orders[tail], w.core.xfercap);
    assert tail in chain;
    SubmitApart(w.h.owner, w.core.store, used, w.core.prepared, tail);
  }

  lemma SubmitHooks(w: World, tail: nat)
    requires CanSubmit(w.core, tail) && tail != Last(w.core.used)
    requires w.core.cookie == CookieOf(|w.h.ch.txs|)
    ensures Hooked(w.core.store.descs, Submit(w.core, tail).store.descs, tail, Last(w.core.used),
                   CookieOf(|w.h.ch.txs| + 1), w.core.prepared[tail][0])
  {
    AssignCountsUp(|w.h.ch.txs|);
  }

  lemma SubmitInv(w: World, tail: nat)
    requires Inv(w) && Enabled(w, DoSubmit(tail))
    ensures Inv(Apply(w, DoSubmit(tail)))
  {
    hide Sane, AfterPrep, AfterSweep, AfterTimer, Owned, NoCookies, ChainsOk, UsedOk, ReportsOk, TxsOk,
         FifoOk, LogOk, Accounted, NoDup, ChainOk, Hooked, ChainFilled, Has, Moved, Split;
    SubmitFacts(w, tail);
    SubmitHooks(w, tail);
    AssignCountsUp(|w.h.ch.txs|);
    var w' := Apply(w, DoSubmit(tail));
    var chain, order, cap := w.core.prepared[tail], w.h.orders[tail], w.core.xfercap;
    var a, b, used := w.core.store.descs, w'.core.store.descs, w.core.used;
    var c := CookieOf(|w.h.ch.txs| + 1);
    SubmittedChain(a, b, chain, tail, order, cap, Last(used), c);
    SubmitLists(w, tail);
    SubmitUsed(a, b, used, w.h.ch, chain, order, cap, tail, c);
    SubmitTxs(w.h.ch, chain, order, cap);
    SubmitFifo(a, b, w.h.ch, chain, order, cap, Last(used));
    SubmitLoad(a, b, used, chain, tail, Last(used), c, chain[0], w.core.active, w.core.completionPending);
    SubmitReports(w.core.completion, w.core.lastCompletion, w.hw, w.holder, w.h.ch, w.h.dv, chain, order, cap);
    SubmitLog(w.hw, w.core.completion, w.h.ch, w.h.dv, chain, order, cap);
  }

  lemma SubmitLists(w: World, tail: nat)
    requires Inv(w) && Enabled(w, DoSubmit(tail))
    ensures var w' := Apply(w, DoSubmit(tail));
            && Owned(w'.h.owner, w'.core.store, w'.core.used, w'.core.prepared)
            && NoCookies(w'.core.store.descs, w'.core.store.free)
            && ChainsOk(w'.core.store.descs, w'.core.prepared, w'.h.orders, w'.core.xfercap)
  {
    hide Sane, AfterPrep, AfterSweep, AfterTimer, Owned, NoCookies, ChainsOk, UsedOk, ReportsOk, TxsOk,
         FifoOk, LogOk, Accounted, NoDup, ChainOk, ChainFilled, Has, Moved, ChainMore, Split;
    SubmitFacts(w, tail);
    SubmitHooks(w, tail);
    var w' := Apply(w, DoSubmit(tail));
    var chain, used := w.core.prepared[tail], w.core.used;
    var b, c := w'.core.store.descs, CookieOf(|w.h.ch.txs| + 1);
    SubmitOwned(w.h.owner, w.core.store, w'.core.store, used, w.core.prepared, tail);
    hide Hooked;
    SubmitChains(w.core.store, b, w.h.owner, used, w.core.prepared, w.h.orders, w.core.xfercap, tail,
                 Last(used), c, chain[0]);
    StaleHooked(w.core.store.descs, b, w.core.store.free, tail, Last(used), c, chain[0]);
  }

  // ----- prep

  /** The first descriptor of a prep. */
  lemma FirstTaken(st: Store, pool: seq<nat>, t: Taken)
    requires Known(st, st.free) && GoodPool(st, pool) && NoDup(st.free) && NoCookies(st.descs, st.free)
    requires t == TakeNext(st, pool) && t.Taken?
    ensures Takeable(t.store, t.desc) && GoodPool(t.store, t.pool) && Known(t.store, t.store.free)
    ensures [t.desc] + Supply(t.store, t.pool) == Supply(st, pool) && t.store.free == Drop(st.free, 1)
    ensures forall d :: d in t.store.descs ==> d in st.descs || d == t.desc
    ensures forall d :: d in st.descs ==> d in t.store.descs && t.store.descs[d] == st.descs[d]
  {}

  lemma TouchedFrom(a: map<nat, Desc>, a1: map<nat, Desc>, b: map<nat, Desc>, d: nat, ids: seq<nat>)
    requires OnlyTouched(a1, b, ids) && d in ids
    requires forall x :: x in a1 ==> x in a || x == d
    requires forall x :: x in a ==> x in a1 && a1[x] == a[x]
    ensures OnlyTouched(a, b, ids)
  {}

  /** Enough descriptors: the chain is the first of the supply, in order. */
  lemma PrepSucceeds(st: Store, cap: nat, p: Piece, pool: seq<nat>)
    requires cap > 0 && Known(st, st.free) && GoodPool(st, pool) && NoDup(st.free)
    requires NoCookies(st.descs, st.free) && |Split(p, cap)| <= |Supply(st, pool)|
    ensures var r, k := PrepChain(st, cap, p, pool), |Split(p, cap)|;
            PrepDone(st, cap, [], Supply(st, pool)[..k], p, r) && r.store.free == Drop(st.free, k)
  {
    hide PrepFrom, ChainFilled, OnlyTouched, NoDup, NoCookies;
    var t, ids := TakeNext(st, pool), Supply(st, pool)[..|Split(p, cap)|];
    FirstTaken(st, pool, t);
    PrepFromDone(t.store, cap, [], t.desc, p, t.pool, ids);
    PrepFromFree(t.store, cap, [], t.desc, p, t.pool);
    assert ids[0] == t.desc;
    TouchedFrom(st.descs, t.store.descs, PrepChain(st, cap, p, pool).store.descs, t.desc, ids);
  }

  /** Too few: prep fails and everything it took is on the free list. */
  lemma PrepFails(st: Store, cap: nat, p: Piece, pool: seq<nat>)
    requires cap > 0 && Known(st, st.free) && GoodPool(st, pool) && NoDup(st.free)
    requires NoCookies(st.descs, st.free) && |Split(p, cap)| > |Supply(st, pool)|
    ensures PrepGaveUp(st, [], Supply(st, pool), PrepChain(st, cap, p, pool))
  {
    hide PrepFrom, NoDup;
    var t := TakeNext(st, pool);
    if t.Taken? {
      hide NoCookies, OnlyTouched;
      FirstTaken(st, pool, t);
      PrepFromGivesUp(t.store, cap, [], t.desc, p, t.pool);
      assert Supply(st, pool)[0] == t.desc;
      TouchedFrom(st.descs, t.store.descs, PrepChain(st, cap, p, pool).store.descs, t.desc, Supply(st, pool));
    }
  }

  /** The used list does not notice changes to other descriptors. */
  lemma SameUsed(a: map<nat, Desc>, b: map<nat, Desc>, used: seq<nat>, ch: Chained, active: int,
                 pending: bool)
    requires UsedOk(a, used, ch) && FifoOk(a, ch) && Accounted(active, pending, a, used)
    requires forall d :: d in used && d in a ==> d in b && b[d] == a[d]
    ensures UsedOk(b, used, ch) && FifoOk(b, ch) && Accounted(active, pending, b, used)
  {
    assert forall i :: 0 <= i < |used| ==> used[i] in used;
    assert forall i :: 0 <= i < |ch.live| ==> ch.live[i] == used[|ch.stale| + i];
    assert forall i :: 0 <= i < |ch.stale| ==> ch.stale[i] == used[i];
    SameChain(a, b, ch.live, ch.pieces[ch.front..]);
    SamePend(a, b, used);
    SamePend(a, b, ch.live);
    forall n | ch.completed <= n < |ch.txs| ensures PendingAt(b, ch, n) {
      assert PendingAt(a, ch, n);
      assert ch.live[ch.txs[n].last - ch.front] in used;
    }
  }

  lemma SameChains(a: Store, b: map<nat, Desc>, owner: map<nat, Place>, used: seq<nat>,
                   prepared: map<nat, seq<nat>>, orders: map<nat, Piece>, cap: nat)
    requires cap > 0 && ChainsOk(a.descs, prepared, orders, cap) && Owned(owner, a, used, prepared)
    requires forall d :: d in a.descs && owner[d].InChain? ==> d in b && b[d] == a.descs[d]
    ensures ChainsOk(b, prepared, orders, cap)
  {
    hide ChainOk;
    forall t | t in prepared ensures t in orders && ChainOk(b, prepared[t], t, orders[t], cap) {
      SameChainOk(a.descs, b, prepared[t], t, orders[t], cap);
    }
  }

  lemma SupplyApart(owner: map<nat, Place>, a: Store, used: seq<nat>, prepared: map<nat, seq<nat>>,
                    pool: seq<nat>)
    requires Owned(owner, a, used, prepared) && GoodPool(a, pool)
    ensures NoDup(Supply(a, pool))
    ensures forall d :: d in Supply(a, pool) ==> d != 0 && (d in owner ==> owner[d].InFree?)
    ensures forall d :: d in Supply(a, pool) && d in owner ==> d in a.free
  {
    assert forall i :: 0 <= i < |pool| ==> pool[i] !in owner;
    NoDupAppend(a.free, pool);
  }

  lemma PrefixOfSupply(a: Store, pool: seq<nat>, k: nat)
    requires NoDup(Supply(a, pool)) && k <= |Supply(a, pool)|
    ensures NoDup(Supply(a, pool)[..k]) && NoDup(Drop(a.free, k))
    ensures forall d :: d in Drop(a.free, k) <==> d in a.free && d !in Supply(a, pool)[..k]
  {
    var all := Supply(a, pool);
    assert forall i :: 0 <= i < |a.free| ==> all[i] == a.free[i];
    forall d | d in a.free ensures d in all[..k] || d in Drop(a.free, k) {
      var i :| 0 <= i < |a.free| && a.free[i] == d;
      if i < k {
        assert all[..k][i] == d;
      } else {
        assert a.free[k..][i - k] == d;
      }
    }
  }

  lemma PrepOwned(owner: map<nat, Place>, a: Store, b: Store, used: seq<nat>,
                  prepared: map<nat, seq<nat>>, chain: seq<nat>)
    requires Owned(owner, a, used, prepared) && chain != [] && Last(chain) !in prepared
    requires forall d :: d in chain ==> d != 0 && (d in owner ==> owner[d].InFree?)
    requires forall d :: d in b.descs <==> d in a.descs || d in chain
    requires NoDup(b.free) && forall d :: d in b.free <==> d in a.free && d !in chain
    ensures Owned(Moved(owner, chain, InChain(Last(chain))), b, used, prepared[Last(chain) := chain])
  {
    MovedIs(owner, chain, InChain(Last(chain)));
    hide Moved, NoDup;
    assert OwnedLists(Moved(owner, chain, InChain(Last(chain))), b, used);
    hide OwnedLists;
  }

  lemma FailOwned(owner: map<nat, Place>, a: Store, b: Store, used: seq<nat>,
                  prepared: map<nat, seq<nat>>)
    requires Owned(owner, a, used, prepared) && NoDup(b.free)
    requires forall d :: d in b.free ==> d != 0 && (d in owner ==> owner[d].InFree?)
    requires forall d :: d in a.free ==> d in b.free
    requires forall d :: d in b.descs <==> d in a.descs || d in b.free
    ensures Owned(Moved(owner, b.free, InFree), b, used, prepared)
  {
    MovedIs(owner, b.free, InFree);
    hide Moved, NoDup;
  }

  lemma PreppedChain(st: Store, cap: nat, chain: seq<nat>, p: Piece, r: Prepared, ack: bool)
    requires cap > 0 && PrepDone(st, cap, [], chain, p, r) && NoDup(chain) && chain != []
    requires Last(chain) in r.store.descs
    ensures var t := Last(chain);
            var b := Put(r.store, t, r.store.descs[t].(acked := ack, len := p.len, txCnt := |chain|)).descs;
            && ChainOk(b, chain, t, p, cap) && OnlyTouched(st.descs, b, chain)
  {
    var t := Last(chain);
    var b := Put(r.store, t, r.store.descs[t].(acked := ack, len := p.len, txCnt := |chain|)).descs;
    SameChain(r.store.descs, b, chain, Split(p, cap));
    hide ChainFilled, NoDup;
    assert t in chain;
  }

  lemma ChainsExtend(b: map<nat, Desc>, prepared: map<nat, seq<nat>>, orders: map<nat, Piece>, cap: nat,
                     chain: seq<nat>, t: nat, p: Piece)
    requires cap > 0 && ChainsOk(b, prepared, orders, cap) && ChainOk(b, chain, t, p, cap) && t !in prepared
    ensures ChainsOk(b, prepared[t := chain], orders[t := p], cap)
  {
    hide ChainOk;
  }

  /** What a prep leaves untouched. */
  lemma PrepKeeps(w: World, b: map<nat, Desc>, ids: seq<nat>)
    requires Inv(w) && OnlyTouched(w.core.store.descs, b, ids)
    requires forall d :: d in ids && d in w.h.owner ==> w.h.owner[d].InFree?
    ensures UsedOk(b, w.core.used, w.h.ch) && FifoOk(b, w.h.ch)
    ensures Accounted(w.core.active, w.core.completionPending, b, w.core.used)
    ensures ChainsOk(b, w.core.prepared, w.h.orders, w.core.xfercap)
    ensures forall d :: d in w.core.store.descs ==> d in b
  {
    hide ChainsOk, UsedOk, ReportsOk, TxsOk, FifoOk, LogOk, Accounted, NoDup, NoCookies;
    assert Owned(w.h.owner, w.core.store, w.core.used, w.core.prepared);
    assert forall d :: d in w.core.used && d in w.core.store.descs ==> d !in ids;
    assert forall d :: d in ids ==> d in b by { TouchedPresent(w.core.store.descs, b, ids); }
    SameUsed(w.core.store.descs, b, w.core.used, w.h.ch, w.core.active, w.core.completionPending);
    SameChains(w.core.store, b, w.h.owner, w.core.used, w.core.prepared, w.h.orders, w.core.xfercap);
  }

  lemma TouchedPresent(a: map<nat, Desc>, b: map<nat, Desc>, ids: seq<nat>)
    requires OnlyTouched(a, b, ids)
    ensures forall d :: d in ids ==> d in b
    ensures forall d :: d in b <==> d in a || d in ids
    ensures NoCookies(b, ids)
  {}

  lemma FreeInSupply(st: Store, pool: seq<nat>)
    ensures forall d :: d in st.free ==> d in Supply(st, pool)
  {}

  lemma TailsAreChained(descs: map<nat, Desc>, owner: map<nat, Place>, st: Store, used: seq<nat>,
                        prepared: map<nat, seq<nat>>, orders: map<nat, Piece>, cap: nat, t: nat)
    requires cap > 0 && Owned(owner, st, used, prepared) && ChainsOk(descs, prepared, orders, cap)
    requires t in prepared
    ensures t in owner && owner[t].InChain?
  {
    hide ChainFilled, NoCookies, NoDup;
    assert ChainOk(descs, prepared[t], t, orders[t], cap);
    assert t in prepared[t];
  }

  lemma PrepFacts(w: World, pool: seq<nat>)
    requires Inv(w) && GoodPool(w.core.store, pool)
    ensures Known(w.core.store, w.core.store.free) && NoDup(w.core.store.free)
    ensures NoCookies(w.core.store.descs, w.core.store.free) && NoDup(Supply(w.core.store, pool))
    ensures forall d :: d in Supply(w.core.store, pool) ==>
              d != 0 && (d in w.h.owner ==> w.h.owner[d].InFree?)
    ensures forall d :: d in Supply(w.core.store, pool) ==> d !in w.core.prepared
  {
    hide UsedOk, ReportsOk, TxsOk, FifoOk, LogOk, Accounted, ChainsOk, Supply, GoodPool;
    assert NoDup(w.core.store.free) && Known(w.core.store, w.core.store.free);
    hide Owned, NoDup;
    SupplyApart(w.h.owner, w.core.store, w.core.used, w.core.prepared, pool);
    forall d | d in w.core.prepared ensures d in w.h.owner && w.h.owner[d].InChain? {
      TailsAreChained(w.core.store.descs, w.h.owner, w.core.store, w.core.used, w.core.prepared,
                      w.h.orders, w.core.xfercap, d);
    }
  }

  lemma PrepFailsInv(w: World, p: Piece, ack: bool, pool: seq<nat>)
    requires Inv(w) && Enabled(w, DoPrep(p, ack, pool))
    requires |Split(p, w.core.xfercap)| > |Supply(w.core.store, pool)|
    ensures Inv(Apply(w, DoPrep(p, ack, pool)))
    ensures Apply(w, DoPrep(p, ack, pool)).core.store.free == Supply(w.core.store, pool)
  {
    hide PrepChain, Sane, AfterSubmit, AfterSweep, AfterTimer, Owned, ChainsOk, UsedOk, ReportsOk, TxsOk,
         FifoOk, LogOk, Accounted, NoDup, Moved, Split, Supply, GoodPool, Known, NoCookies, OnlyTouched;
    var st := w.core.store;
    var all := Supply(st, pool);
    PrepFacts(w, pool);
    PrepFails(st, w.core.xfercap, p, pool);
    var b := PrepChain(st, w.core.xfercap, p, pool).store;
    assert [] + all == all;
    PrepKeeps(w, b.descs, all);
    TouchedPresent(st.descs, b.descs, all);
    FreeInSupply(st, pool);
    FailOwned(w.h.owner, st, b, w.core.used, w.core.prepared);
  }

  lemma PrepSucceedsInv(w: World, p: Piece, ack: bool, pool: seq<nat>)
    requires Inv(w) && Enabled(w, DoPrep(p, ack, pool))
    requires |Split(p, w.core.xfercap)| <= |Supply(w.core.store, pool)|
    ensures Inv(Apply(w, DoPrep(p, ack, pool)))
  {
    hide PrepChain, Sane, AfterSubmit, AfterSweep, AfterTimer, Owned, ChainsOk, UsedOk, ReportsOk, TxsOk,
         FifoOk, LogOk, Accounted, NoDup, Moved, Supply, GoodPool, Known, NoCookies, OnlyTouched, ChainOk,
         ChainFilled, Drop;
    var st, cap := w.core.store, w.core.xfercap;
    var k := |Split(p, cap)|;
    var chain := Supply(st, pool)[..k];
    PrepFacts(w, pool);
    PrepSucceeds(st, cap, p, pool);
    var r := PrepChain(st, cap, p, pool);
    assert r.chain == chain && chain != [];
    TouchedPresent(st.descs, r.store.descs, chain);
    PrefixOfSupply(st, pool, k);
    PreppedChain(st, cap, chain, p, r, ack);
    var b := Prep(w.core, p, ack, pool).store;
    PrepKeeps(w, b.descs, chain);
    TouchedPresent(st.descs, b.descs, chain);
    PrepOwned(w.h.owner, st, b, w.core.used, w.core.prepared, chain);
    ChainsExtend(b.descs, w.core.prepared, w.h.orders, cap, chain, Last(chain), p);
    FreeQuiet(st, b, chain);
  }

  lemma FreeQuiet(a: Store, b: Store, chain: seq<nat>)
    requires OnlyTouched(a.descs, b.descs, chain) && NoCookies(a.descs, a.free)
    requires forall d :: d in b.free <==> d in a.free && d !in chain
    ensures NoCookies(b.descs, b.free)
  {
    assert forall i :: 0 <= i < |b.free| ==> b.free[i] in b.free;
  }
}
