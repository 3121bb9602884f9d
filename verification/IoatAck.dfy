/**
 Acknowledgement and accounting on an I/OAT channel: which descriptors a cleanup gives back, what
 `active` counts, and when the timer gives up on the device.
 */
module IoatAck {
  import opened DmaCookies
  import opened Memcpy
  import opened IoatCore
  import opened IoatSweep
  import opened IoatRun
  import opened IoatProof
  import opened IoatCleanup
  import opened IoatTheorems

  // ----- what a prepared chain says about acknowledgement

  /** After a successful prep all descriptors of the chain but the last may be freed at once, the last
      one just if the caller has acknowledged it. */
  lemma PrepAcks(c: Core, p: Piece, ack: bool, pool: seq<nat>)
    requires c.xfercap > 0 && Known(c.store, c.store.free) && GoodPool(c.store, pool) && NoDup(c.store.free)
    requires NoCookies(c.store.descs, c.store.free) && NoDup(Supply(c.store, pool))
    requires |Split(p, c.xfercap)| <= |Supply(c.store, pool)|
    ensures var k := |Split(p, c.xfercap)|;
            var chain, b := Supply(c.store, pool)[..k], Prep(c, p, ack, pool).store.descs;
            && k > 0
            && (forall i :: 0 <= i < k - 1 ==> chain[i] in b && b[chain[i]].acked)
            && chain[k - 1] in b && (b[chain[k - 1]].acked <==> ack) && b[chain[k - 1]].txCnt == k
  {
    var k := |Split(p, c.xfercap)|;
    var chain := Supply(c.store, pool)[..k];
    var r := PrepChain(c.store, c.xfercap, p, pool);
    hide PrepChain, Split, Supply, NoCookies, Known, GoodPool, NoDup, InnerAcked;
    PrepReady(c, p, pool);
    PrefixDistinct(Supply(c.store, pool), k);
    TailFlags(r, chain, p, ack);
  }

  lemma PrefixDistinct(s: seq<nat>, k: nat)
    requires NoDup(s) && k <= |s|
    ensures NoDup(s[..k])
  {}

  lemma PrepReady(c: Core, p: Piece, pool: seq<nat>)
    requires c.xfercap > 0 && Known(c.store, c.store.free) && GoodPool(c.store, pool) && NoDup(c.store.free)
    requires NoCookies(c.store.descs, c.store.free) && |Split(p, c.xfercap)| <= |Supply(c.store, pool)|
    ensures var r, chain := PrepChain(c.store, c.xfercap, p, pool), Supply(c.store, pool)[..|Split(p, c.xfercap)|];
            && r.Ready? && r.chain == chain && chain != [] && InnerAcked(r.store.descs, chain)
            && Last(chain) in r.store.descs
  {
    var chain := Supply(c.store, pool)[..|Split(p, c.xfercap)|];
    var r := PrepChain(c.store, c.xfercap, p, pool);
    PrepSucceeds(c.store, c.xfercap, p, pool);
    hide PrepChain, Supply, InnerAcked, Known, GoodPool, NoDup, OnlyTouched, NoCookies;
    assert [] + chain == chain && ChainFilled(r.store.descs, chain, Split(p, c.xfercap));
  }

  lemma TailFlags(r: Prepared, chain: seq<nat>, p: Piece, ack: bool)
    requires r.Ready? && chain != [] && NoDup(chain) && InnerAcked(r.store.descs, chain) && Last(chain) in r.store.descs
    ensures var t := Last(chain);
            var b := Put(r.store, t, r.store.descs[t].(acked := ack, len := p.len, txCnt := |chain|)).descs;
            && (forall i :: 0 <= i < |chain| - 1 ==> chain[i] in b && b[chain[i]].acked)
            && t in b && (b[t].acked <==> ack) && b[t].txCnt == |chain|
  {}

  // ----- the invariant

  /** Position `p` of the chain is the end of a transaction. */
  predicate IsLast(txs: seq<Tx>, p: nat) {
    exists n :: 0 <= n < |txs| && txs[n].last == p
  }

  /** A live descriptor that is not acknowledged is the last of its transaction. */
  predicate LiveAcked(descs: map<nat, Desc>, ch: Chained) {
    forall i :: 0 <= i < |ch.live| ==>
      ch.live[i] in descs && (descs[ch.live[i]].acked || IsLast(ch.txs, ch.front + i))
  }

  /** The last descriptor of every transaction not yet passed is at its position. */
  predicate TailsPlaced(ch: Chained) {
    forall n :: 0 <= n < |ch.txs| && ch.txs[n].last >= ch.front ==>
      ch.txs[n].last - ch.front < |ch.live| && ch.live[ch.txs[n].last - ch.front] == ch.txs[n].tail
  }

  /** What a sweep has left behind. */
  predicate StaleTails(ch: Chained) {
    forall i :: 0 <= i < |ch.stale| ==> RetiredTail(ch, ch.stale[i])
  }

  /** `d` is the last descriptor of a retired transaction. */
  predicate RetiredTail(ch: Chained, d: nat) {
    exists n :: 0 <= n < |ch.txs| && n < ch.completed && ch.txs[n].tail == d
  }

  /** A pending transaction counts its descriptors. */
  predicate CountsKept(descs: map<nat, Desc>, ch: Chained) {
    forall n :: ch.completed <= n < |ch.txs| ==> CountAt(descs, ch.txs[n])
  }

  predicate CountAt(descs: map<nat, Desc>, t: Tx) {
    t.tail in descs && descs[t.tail].txCnt == t.last - t.first + 1
  }

  ghost predicate AckInv(w: World) {
    && LiveAcked(w.core.store.descs, w.h.ch) && TailsPlaced(w.h.ch) && StaleTails(w.h.ch)
    && CountsKept(w.core.store.descs, w.h.ch)
  }

  // ----- steps that leave the chain alone

  /** On the used list acknowledgements stay, and counts too. */
  ghost predicate UsedKept(a: map<nat, Desc>, b: map<nat, Desc>, used: seq<nat>) {
    forall d :: d in used && d in a ==> d in b && (a[d].acked ==> b[d].acked) && a[d].txCnt == b[d].txCnt
  }

  lemma KeptAckInv(w: World, w': World)
    requires Inv(w) && AckInv(w) && w'.h.ch == w.h.ch
    requires UsedKept(w.core.store.descs, w'.core.store.descs, w.core.used)
    ensures AckInv(w')
  {
    hide Owned, ChainsOk, ReportsOk, TxsOk, LogOk, Accounted, NoCookies, ChainFilled, NoDup, IsLast;
    var ch, a, b := w.h.ch, w.core.store.descs, w'.core.store.descs;
    assert forall i :: 0 <= i < |ch.live| ==> ch.live[i] in w.core.used by {
      assert forall i :: 0 <= i < |ch.live| ==> ch.live[i] == w.core.used[|ch.stale| + i];
    }
    forall n | ch.completed <= n < |ch.txs| ensures CountAt(b, ch.txs[n]) {
      assert PendingAt(a, ch, n) && CountAt(a, ch.txs[n]);
    }
  }

  /** A prep touches free descriptors only. */
  lemma PrepUsedKept(w: World, p: Piece, ack: bool, pool: seq<nat>)
    requires Inv(w) && Enabled(w, DoPrep(p, ack, pool))
    ensures UsedKept(w.core.store.descs, Prep(w.core, p, ack, pool).store.descs, w.core.used)
  {
    hide Sane, PrepChain, ChainsOk, UsedOk, ReportsOk, TxsOk, FifoOk, LogOk, Accounted, NoDup, NoCookies, Split, Supply,
         GoodPool, Known;
    var st, cap := w.core.store, w.core.xfercap;
    PrepFacts(w, pool);
    if |Split(p, cap)| <= |Supply(st, pool)| {
      var k := |Split(p, cap)|;
      var chain := Supply(st, pool)[..k];
      PrepSucceeds(st, cap, p, pool);
      var r := PrepChain(st, cap, p, pool);
      TouchedPresent(st.descs, r.store.descs, chain);
      PrefixOfSupply(st, pool, k);
      hide ChainFilled, InnerAcked;
      PreppedChain(st, cap, chain, p, r, ack);
      var b := Prep(w.core, p, ack, pool).store.descs;
      assert OnlyTouched(st.descs, b, chain);
      assert forall d :: d in chain ==> d in Supply(st, pool);
      UsedUntouched(w, b, chain);
    } else {
      PrepFails(st, cap, p, pool);
      UsedUntouched(w, PrepChain(st, cap, p, pool).store.descs, Supply(st, pool));
    }
  }

  lemma UsedUntouched(w: World, b: map<nat, Desc>, ids: seq<nat>)
    requires Inv(w) && OnlyTouched(w.core.store.descs, b, ids)
    requires forall d :: d in ids && d in w.h.owner ==> w.h.owner[d].InFree?
    ensures UsedKept(w.core.store.descs, b, w.core.used)
  {
    hide ChainsOk, UsedOk, ReportsOk, TxsOk, FifoOk, LogOk, Accounted, NoDup, NoCookies;
    assert Owned(w.h.owner, w.core.store, w.core.used, w.core.prepared);
  }

  // ----- submit

  lemma SubmitAckInv(w: World, tail: nat)
    requires Inv(w) && AckInv(w) && Enabled(w, DoSubmit(tail))
    ensures AckInv(Apply(w, DoSubmit(tail)))
  {
    hide Sane, AfterPrep, AfterSweep, AfterTimer, Owned, NoCookies, ChainsOk, ReportsOk, TxsOk, FifoOk, LogOk, Accounted,
         NoDup, ChainFilled, Has, Moved, Split, LiveAcked, TailsPlaced, StaleTails, CountsKept;
    SubmitFacts(w, tail);
    var w' := Apply(w, DoSubmit(tail));
    var chain := w.core.prepared[tail];
    var a, b := w.core.store.descs, w'.core.store.descs;
    SubmitFlags(w.core, tail);
    SubmitLive(a, b, w.h.ch, chain, w.h.orders[tail], w.core.xfercap);
    SubmitPlaced(w.h.ch, chain, w.h.orders[tail], w.core.xfercap);
    assert FifoOk(a, w.h.ch);
    SubmitCounts(a, b, w.h.ch, chain, w.h.orders[tail], w.core.xfercap);
  }

  /** A submit changes neither acknowledgements nor counts. */
  lemma SubmitFlags(c: Core, tail: nat)
    requires CanSubmit(c, tail)
    ensures var a, b := c.store.descs, Submit(c, tail).store.descs;
            forall d :: d in a ==> d in b && b[d].acked == a[d].acked && b[d].txCnt == a[d].txCnt
  {}

  lemma LastStays(txs: seq<Tx>, t: Tx, p: nat)
    ensures IsLast(txs, p) ==> IsLast(txs + [t], p)
    ensures IsLast(txs + [t], t.last)
  {
    if n :| 0 <= n < |txs| && txs[n].last == p { assert (txs + [t])[n].last == p; }
    assert (txs + [t])[|txs|].last == t.last;
  }

  lemma SubmitLive(a: map<nat, Desc>, b: map<nat, Desc>, ch: Chained, chain: seq<nat>, order: Piece, cap: nat)
    requires cap > 0 && chain != [] && LiveAcked(a, ch) && InnerAcked(a, chain) && Last(chain) in a
    requires ch.front + |ch.live| == |ch.pieces|
    requires forall d :: d in a ==> d in b && b[d].acked == a[d].acked
    ensures LiveAcked(b, ChainMore(ch, chain, order, cap))
  {
    hide IsLast, Split;
    var ch' := ChainMore(ch, chain, order, cap);
    var t := ch'.txs[|ch.txs|];
    forall i | 0 <= i < |ch'.live|
      ensures ch'.live[i] in b && (b[ch'.live[i]].acked || IsLast(ch'.txs, ch'.front + i))
    {
      LastStays(ch.txs, t, ch.front + i);
      if i >= |ch.live| { assert ch'.live[i] == chain[i - |ch.live|]; }
    }
  }

  lemma SubmitPlaced(ch: Chained, chain: seq<nat>, order: Piece, cap: nat)
    requires cap > 0 && chain != [] && TailsPlaced(ch) && StaleTails(ch) && ch.front + |ch.live| == |ch.pieces|
    ensures TailsPlaced(ChainMore(ch, chain, order, cap)) && StaleTails(ChainMore(ch, chain, order, cap))
  {
    hide Split;
    var ch' := ChainMore(ch, chain, order, cap);
    forall i | 0 <= i < |ch'.stale| ensures RetiredTail(ch', ch'.stale[i]) {
      assert RetiredTail(ch, ch.stale[i]);
      var n :| 0 <= n < |ch.txs| && n < ch.completed && ch.txs[n].tail == ch.stale[i];
      assert ch'.txs[n].tail == ch'.stale[i];
    }
  }

  lemma SubmitCounts(a: map<nat, Desc>, b: map<nat, Desc>, ch: Chained, chain: seq<nat>, order: Piece, cap: nat)
    requires cap > 0 && chain != [] && CountsKept(a, ch) && Last(chain) in a && a[Last(chain)].txCnt == |chain|
    requires forall d :: d in a ==> d in b && b[d].txCnt == a[d].txCnt
    ensures CountsKept(b, ChainMore(ch, chain, order, cap))
  {
    hide Split;
    var ch' := ChainMore(ch, chain, order, cap);
    forall n | ch'.completed <= n < |ch'.txs| ensures CountAt(b, ch'.txs[n]) {
      if n < |ch.txs| { assert CountAt(a, ch.txs[n]); }
    }
  }

  // ----- sweep

  /** Where a sweep stops: the entries it passes, in the order of the list. */
  lemma SweepAckInv(w: World, c: Core, at: nat)
    requires Inv(w) && AckInv(w) && Sane(w) && Entered(w, c) && w.core.completion != 0
    requires w.h.ch.front <= at <= w.h.dv.reportedAt && at - w.h.ch.front < |w.h.ch.live|
    requires Watched(c, w.handlers, Unlocked)
    ensures var w' := AfterSweep(w, Cleanup(c, w.h.ch.live[at - w.h.ch.front]), at);
            AckInv(w') && PassedFreed(w, w')
  {
    hide Owned, NoCookies, ChainsOk, UsedOk, ReportsOk, TxsOk, LogOk, Accounted, NoDup, LiveAcked, TailsPlaced, StaleTails,
         CountsKept, WithAck, Pend, Load, LastCookie, Retired, Moved, AfterSweep, Cleanup, CookiesOk, FifoOk, PassedFreed;
    var ch, k, used, descs := w.h.ch, at - w.h.ch.front, w.core.used, w.core.store.descs;
    CutIs(ch, used, k);
    var a, phys, b := ch.stale + ch.live[..k], ch.live[k], ch.live[k + 1..];
    UsedFacts(w);
    CutParts(descs, ch, used, k, a, phys, b);
    SweepCore(c, ch, k, a, phys, b);
    SweepInv(w, c, at);
    AfterSweepIs(w, Cleanup(c, phys), at, k, a, phys, b);
    hide Cut;
    var w' := AfterSweep(w, Cleanup(c, phys), at);
    assert FifoOk(w'.core.store.descs, w'.h.ch);
    SweptFlags(descs, ch, w'.h.ch, k, a, phys);
    SweptPassed(w, w', k, a);
  }

  /** Every descriptor that a sweep passes, other than the last one of a transaction, is free after it. */
  ghost predicate PassedFreed(w: World, w': World) {
    forall p :: w.h.ch.front <= p < w'.h.ch.front && p - w.h.ch.front < |w.h.ch.live| && !IsLast(w.h.ch.txs, p) ==>
      w.h.ch.live[p - w.h.ch.front] in w'.core.store.free
  }

  lemma PassedAcked(descs: map<nat, Desc>, ch: Chained, k: nat, a: seq<nat>, i: nat)
    requires i < k <= |ch.live| && a == ch.stale + ch.live[..k] && Has(descs, a)
    requires LiveAcked(descs, ch) && !IsLast(ch.txs, ch.front + i)
    ensures ch.live[i] in WithAck(descs, a, true)
  {
    hide IsLast, WithAck;
    assert a[|ch.stale| + i] == ch.live[i];
    AckMembers(descs, a, true, ch.live[i]);
  }

  lemma SweptPassed(w: World, w': World, k: nat, a: seq<nat>)
    requires k <= |w.h.ch.live| && a == w.h.ch.stale + w.h.ch.live[..k] && Has(w.core.store.descs, a)
    requires LiveAcked(w.core.store.descs, w.h.ch) && w'.h.ch.front == w.h.ch.front + k
    requires w'.core.store.free == w.core.store.free + WithAck(w.core.store.descs, a, true)
    ensures PassedFreed(w, w')
  {
    var ch := w.h.ch;
    hide IsLast, WithAck, LiveAcked, Has;
    forall p | ch.front <= p < w'.h.ch.front && !IsLast(ch.txs, p) ensures ch.live[p - ch.front] in w'.core.store.free {
      PassedAcked(w.core.store.descs, ch, k, a, p - ch.front);
    }
  }

  lemma SweptFlags(descs: map<nat, Desc>, ch: Chained, ch': Chained, k: nat, a: seq<nat>, phys: nat)
    requires LiveAcked(descs, ch) && TailsPlaced(ch) && StaleTails(ch) && CountsKept(descs, ch)
    requires k < |ch.live| && a == ch.stale + ch.live[..k] && Has(descs, a) && Has(descs, a + [phys])
    requires ch' == SweptChain(descs, ch, k, a, phys)
    requires FifoOk(Retired(descs, a + [phys]), ch')
    ensures LiveAcked(Retired(descs, a + [phys]), ch') && TailsPlaced(ch') && StaleTails(ch')
    ensures CountsKept(Retired(descs, a + [phys]), ch')
  {
    hide Pend, FifoOk, CountsKept, LiveAcked, TailsPlaced, StaleTails, WithAck, Retired;
    SweptLive(descs, ch, ch', k, a, phys);
    SweptTails(descs, ch, ch', k, a, phys);
    SweptCounts(descs, ch, ch', a, phys);
  }

  lemma SweptLive(descs: map<nat, Desc>, ch: Chained, ch': Chained, k: nat, a: seq<nat>, phys: nat)
    requires LiveAcked(descs, ch) && TailsPlaced(ch) && k < |ch.live|
    requires ch'.live == ch.live[k..] && ch'.front == ch.front + k && ch'.txs == ch.txs
    ensures LiveAcked(Retired(descs, a + [phys]), ch') && TailsPlaced(ch')
  {
    hide IsLast;
    forall i | 0 <= i < |ch'.live|
      ensures ch'.live[i] in descs && (descs[ch'.live[i]].acked || IsLast(ch'.txs, ch'.front + i))
    {
      assert ch'.live[i] == ch.live[k + i] && ch'.front + i == ch.front + (k + i);
    }
  }

  lemma SweptTails(descs: map<nat, Desc>, ch: Chained, ch': Chained, k: nat, a: seq<nat>, phys: nat)
    requires LiveAcked(descs, ch) && TailsPlaced(ch) && StaleTails(ch)
    requires k < |ch.live| && a == ch.stale + ch.live[..k] && Has(descs, a)
    requires ch'.stale == WithAck(descs, a, false) && ch'.front == ch.front + k && ch'.txs == ch.txs
    requires ch'.completed >= ch.completed && FifoOk(Retired(descs, a + [phys]), ch')
    ensures StaleTails(ch')
  {
    hide WithAck, Pend, Tails, Has, Retired;
    forall i | 0 <= i < |ch'.stale| ensures RetiredTail(ch', ch'.stale[i]) {
      var d := ch'.stale[i];
      AckMembers(descs, a, false, d);
      var j :| 0 <= j < |a| && a[j] == d;
      if j < |ch.stale| {
        assert RetiredTail(ch, ch.stale[j]);
      } else {
        LastIsRetired(Retired(descs, a + [phys]), ch, ch', j - |ch.stale|);
      }
    }
  }

  /** A last descriptor that was passed belongs to a transaction that is retired. */
  lemma LastIsRetired(b: map<nat, Desc>, ch: Chained, ch': Chained, i: nat)
    requires i < |ch.live| && IsLast(ch.txs, ch.front + i) && TailsPlaced(ch)
    requires ch'.txs == ch.txs && ch.front + i < ch'.front && FifoOk(b, ch')
    ensures RetiredTail(ch', ch.live[i])
  {
    hide Pend, Tails, Has;
    var n :| 0 <= n < |ch.txs| && ch.txs[n].last == ch.front + i;
    assert n < ch'.completed || PendingAt(b, ch', n);
    assert ch'.txs[n].tail == ch.live[i];
  }

  lemma SweptCounts(descs: map<nat, Desc>, ch: Chained, ch': Chained, a: seq<nat>, phys: nat)
    requires CountsKept(descs, ch) && ch'.txs == ch.txs && ch'.completed >= ch.completed
    ensures CountsKept(Retired(descs, a + [phys]), ch')
  {
    forall n | ch'.completed <= n < |ch'.txs| ensures CountAt(Retired(descs, a + [phys]), ch'.txs[n]) {
      assert CountAt(descs, ch.txs[n]);
    }
  }

  // ----- every step

  /** The positions that the sweep of a step passes, if it has one, are given back. */
  lemma AckStep(w: World, a: Action)
    requires Inv(w) && AckInv(w) && Enabled(w, a)
    ensures AckInv(Apply(w, a)) && PassedFreed(w, Apply(w, a))
  {
    hide Inv, AckInv, AfterSweep, Cleanup, Sane, PassedFreed, Prep;
    match a {
      case DoPrep(p, ack, pool) => PrepAckStep(w, p, ack, pool);
      case DoSubmit(tail) => SubmitAckInv(w, tail); SubmitNotPassed(w, tail);
      case FinishCleanup => FinishAckStep(w);
      case TimerActs =>
        if w.holder == Checking && Progress(w.core) { TimerAckStep(w); } else { QuietAckStep(w, a); }
      case _ => QuietAckStep(w, a);
    }
  }

  lemma NotPassed(w: World, w': World)
    requires w'.h.ch.front == w.h.ch.front
    ensures PassedFreed(w, w')
  {}

  lemma SubmitNotPassed(w: World, tail: nat)
    requires Enabled(w, DoSubmit(tail))
    ensures PassedFreed(w, Apply(w, DoSubmit(tail)))
  {
    hide PassedFreed, Sane, Split;
    NotPassed(w, Apply(w, DoSubmit(tail)));
  }

  lemma PrepAckStep(w: World, p: Piece, ack: bool, pool: seq<nat>)
    requires Inv(w) && AckInv(w) && Enabled(w, DoPrep(p, ack, pool))
    ensures var w' := Apply(w, DoPrep(p, ack, pool)); AckInv(w') && PassedFreed(w, w')
  {
    PrepUsedKept(w, p, ack, pool);
    hide Inv, AckInv, PassedFreed, Sane, UsedKept, PrepChain;
    var w' := Apply(w, DoPrep(p, ack, pool));
    assert w'.h.ch == w.h.ch;
    PrepCore(w, p, ack, pool);
    KeptAckInv(w, w');
    NotPassed(w, w');
  }

  lemma PrepCore(w: World, p: Piece, ack: bool, pool: seq<nat>)
    requires Enabled(w, DoPrep(p, ack, pool))
    ensures Apply(w, DoPrep(p, ack, pool)).core.store.descs == Prep(w.core, p, ack, pool).store.descs
            || Apply(w, DoPrep(p, ack, pool)) == w
    ensures Apply(w, DoPrep(p, ack, pool)) == w ==> UsedKept(w.core.store.descs, w.core.store.descs, w.core.used)
  {
    hide Sane, PrepChain, Moved;
  }

  lemma QuietAckStep(w: World, a: Action)
    requires Inv(w) && AckInv(w) && Enabled(w, a) && !a.DoPrep? && !a.DoSubmit? && !a.FinishCleanup?
    requires a.TimerActs? ==> w.holder == Restarting || !Progress(w.core)
    ensures AckInv(Apply(w, a)) && PassedFreed(w, Apply(w, a))
  {
    var w' := Apply(w, a);
    QuietChain(w, a);
    hide Inv, AckInv, PassedFreed, Sane, UsedKept, Apply, Enabled;
    KeptAckInv(w, w');
    NotPassed(w, w');
  }

  lemma QuietChain(w: World, a: Action)
    requires Enabled(w, a) && !a.DoPrep? && !a.DoSubmit? && !a.FinishCleanup?
    requires a.TimerActs? ==> w.holder == Restarting || !Progress(w.core)
    ensures Apply(w, a).h.ch == w.h.ch
    ensures UsedKept(w.core.store.descs, Apply(w, a).core.store.descs, w.core.used)
  {
    hide Sane, AfterSweep, AfterPrep, AfterSubmit, Cleanup;
  }

  lemma FinishAckStep(w: World)
    requires Inv(w) && AckInv(w) && Enabled(w, FinishCleanup)
    ensures AckInv(Apply(w, FinishCleanup)) && PassedFreed(w, Apply(w, FinishCleanup))
  {
    hide Owned, NoCookies, ChainsOk, UsedOk, TxsOk, FifoOk, LogOk, Accounted, NoDup,
         AfterSweep, AfterPrep, AfterSubmit, AfterTimer, Cleanup, AckInv, PassedFreed;
    SweepAckInv(w, w.core, w.h.dv.cleanAt);
  }

  lemma TimerAckStep(w: World)
    requires Inv(w) && AckInv(w) && Enabled(w, TimerActs) && w.holder == Checking && Progress(w.core)
    ensures AckInv(Apply(w, TimerActs)) && PassedFreed(w, Apply(w, TimerActs))
  {
    hide Owned, NoCookies, ChainsOk, UsedOk, TxsOk, FifoOk, LogOk, Accounted, NoDup,
         AfterSweep, AfterPrep, AfterSubmit, Cleanup, AckInv, PassedFreed;
    SweepAckInv(w, Preamble(w.core), w.h.dv.reportedAt);
  }

  // ----- runs

  lemma StartedAck(cap: nat, level: int, ids: seq<nat>)
    requires cap > 0 && ids != [] && NoDup(ids) && 0 !in ids
    ensures AckInv(Started(cap, level, ids))
  {}

  lemma {:induction false} RunAck(run: seq<World>, acts: seq<Action>, i: nat)
    requires IsRun(run, acts) && i < |run|
    ensures AckInv(run[i])
  {
    hide Inv, Apply, Enabled, AckInv, PassedFreed;
    if i == 0 {
      var cap, level, ids :| cap > 0 && ids != [] && NoDup(ids) && 0 !in ids
                             && run[0] == Started(cap, level, ids);
      StartedAck(cap, level, ids);
    } else {
      RunAck(run, acts, i - 1);
      RunInv(run, acts, i - 1);
      AckStep(run[i - 1], acts[i - 1]);
    }
  }

  /** In every run: every descriptor that a cleanup passes, other than the last one of a transaction, is
      on the free list after it. */
  lemma InnerFreed(run: seq<World>, acts: seq<Action>, i: nat)
    requires IsRun(run, acts) && i < |acts|
    ensures PassedFreed(run[i], run[i + 1])
  {
    hide Inv, Apply, Enabled, AckInv, PassedFreed;
    RunAck(run, acts, i);
    RunInv(run, acts, i);
    AckStep(run[i], acts[i]);
  }

  /** In every run: what lies on the used list before the last completed descriptor is the last
      descriptor of a retired transaction, and what lies from there on without being acknowledged is the
      last descriptor of its transaction. */
  lemma LeftOnUsed(run: seq<World>, acts: seq<Action>, i: nat, j: nat, k: nat)
    requires IsRun(run, acts) && i < |run|
    requires run[i].core.lastCompletion != 0 && j < |run[i].core.used| && k < |run[i].core.used|
    requires run[i].core.used[k] == run[i].core.lastCompletion
    ensures j < k ==> RetiredTail(run[i].h.ch, run[i].core.used[j])
    ensures j >= k ==> var d := run[i].core.used[j];
              && d in run[i].core.store.descs
              && (run[i].core.store.descs[d].acked || IsLast(run[i].h.ch.txs, run[i].h.ch.front + (j - k)))
  {
    hide IsRun, Inv, AckInv, IsLast, RetiredTail;
    RunAck(run, acts, i);
    RunInv(run, acts, i);
    Left(run[i], j, k);
  }

  lemma Left(w: World, j: nat, k: nat)
    requires Inv(w) && AckInv(w) && w.core.lastCompletion != 0 && j < |w.core.used| && k < |w.core.used|
    requires w.core.used[k] == w.core.lastCompletion
    ensures j < k ==> RetiredTail(w.h.ch, w.core.used[j])
    ensures j >= k ==> var d := w.core.used[j];
              && d in w.core.store.descs
              && (w.core.store.descs[d].acked || IsLast(w.h.ch.txs, w.h.ch.front + (j - k)))
  {
    hide Owned, ChainsOk, TxsOk, FifoOk, LogOk, Accounted, NoCookies, ChainFilled, IsLast, RetiredTail, CountsKept, TailsPlaced;
    var ch := w.h.ch;
    ListsTheorem(w);
    assert w.core.used[|ch.stale|] == ch.live[0] == w.core.lastCompletion;
    SamePlace(w.core.used, k, |ch.stale|);
    if j < k {
      assert w.core.used[j] == ch.stale[j];
    } else {
      assert w.core.used[j] == ch.live[j - k];
    }
  }

  lemma SamePlace(l: seq<nat>, i: nat, j: nat)
    requires NoDup(l) && i < |l| && j < |l| && l[i] == l[j]
    ensures i == j
  {}

  // ----- what `active` counts

  /** Descriptors of the transactions from number `n` on (counted from 0). */
  function Pieces(txs: seq<Tx>, n: nat): int
    requires n <= |txs|
    decreases |txs| - n
  {
    if n == |txs| then 0 else txs[n].last - txs[n].first + 1 + Pieces(txs, n + 1)
  }

  /** They lie one after the other. */
  lemma {:induction false} PiecesSpan(txs: seq<Tx>, pieces: seq<Piece>, cap: nat, n: nat)
    requires cap > 0 && n <= |txs| && TxsOk(txs, pieces, cap)
    ensures Pieces(txs, n) == |pieces| - 1 - (if n == 0 then 0 else txs[n - 1].last)
    decreases |txs| - n
  {
    hide Split;
    if n < |txs| {
      PiecesSpan(txs, pieces, cap, n + 1);
      assert TxAt(txs, pieces, cap, n);
    }
  }

  lemma {:induction false} LoadOfPend(descs: map<nat, Desc>, l: seq<nat>, ch: Chained, n: nat)
    requires Has(descs, l) && n <= |ch.txs| && Pend(descs, l) == Tails(ch.txs[n..])
    requires forall m :: n <= m < |ch.txs| ==> CountAt(descs, ch.txs[m])
    ensures Load(descs, l) == Pieces(ch.txs, n)
    decreases |l|
  {
    if l == [] {
      assert Tails(ch.txs[n..]) == [];
    } else if descs[l[0]].cookie == 0 {
      assert [] + Pend(descs, l[1..]) == Pend(descs, l[1..]);
      LoadOfPend(descs, l[1..], ch, n);
    } else {
      TailsFirst(ch.txs, n, l[0], Pend(descs, l[1..]));
      assert CountAt(descs, ch.txs[n]);
      LoadOfPend(descs, l[1..], ch, n + 1);
    }
  }

  lemma TailsFirst(txs: seq<Tx>, n: nat, d: nat, rest: seq<nat>)
    requires n <= |txs| && Tails(txs[n..]) == [d] + rest
    ensures n < |txs| && txs[n].tail == d && Tails(txs[n + 1..]) == rest
  {
    assert |txs[n..]| > 0;
    assert txs[n..][1..] == txs[n + 1..];
    assert ([d] + rest)[1..] == rest;
  }

  /** In every run `active` is the number of descriptors submitted after those of the transactions that
      are retired. */
  lemma ActiveTheorem(run: seq<World>, acts: seq<Action>, i: nat)
    requires IsRun(run, acts) && i < |run|
    ensures var c, ch := run[i].core, run[i].h.ch;
            && ch.completed <= |ch.txs|
            && c.active == |ch.pieces| - 1 - (if ch.completed == 0 then 0 else ch.txs[ch.completed - 1].last)
  {
    hide IsRun, Inv, AckInv;
    RunAck(run, acts, i);
    RunInv(run, acts, i);
    ActiveIs(run[i]);
  }

  lemma ActiveIs(w: World)
    requires Inv(w) && AckInv(w)
    ensures var c, ch := w.core, w.h.ch;
            && ch.completed <= |ch.txs|
            && c.active == |ch.pieces| - 1 - (if ch.completed == 0 then 0 else ch.txs[ch.completed - 1].last)
  {
    hide Owned, ChainsOk, ReportsOk, LogOk, ChainFilled, LiveAcked, TailsPlaced, StaleTails, TxsOk, NoCookies, Load, Pend,
         PendingAt, CountAt, Pieces, Tails;
    var c, ch := w.core, w.h.ch;
    LiveLoad(c.store.descs, c.used, ch);
    LoadOfPend(c.store.descs, ch.live, ch, ch.completed);
    PiecesSpan(ch.txs, ch.pieces, w.core.xfercap, ch.completed);
  }

  lemma LiveLoad(descs: map<nat, Desc>, used: seq<nat>, ch: Chained)
    requires Has(descs, used) && Has(descs, ch.live) && used == ch.stale + ch.live && NoCookies(descs, ch.stale)
    ensures Load(descs, used) == Load(descs, ch.live)
  {
    LoadNone(descs, ch.stale);
    PendAppend(descs, ch.stale, ch.live);
  }

  /** A submit adds the number of its descriptors to `active`, and to `pending` unless that reaches the
      level at which the driver tells the device. */
  lemma SubmitAdds(w: World, tail: nat)
    requires Inv(w) && Enabled(w, DoSubmit(tail))
    ensures var c, c', n := w.core, Apply(w, DoSubmit(tail)).core, |w.core.prepared[tail]|;
            && c'.active == c.active + n
            && c'.pending == if c.pending + n < c.pendingLevel then c.pending + n else 0
  {
    hide Sane, Moved, Split, ChainFilled, NoDup, Owned;
    SubmitFacts(w, tail);
    hide Inv;
  }

  /** The null descriptor that starts a channel: of a size the device accepts, acknowledged, the last of
      its chain. */
  lemma NullDescriptor(c: Core, pool: seq<nat>)
    requires Known(c.store, c.store.free)
    ensures match TakeNext(c.store, pool)
            case NoDesc => StartNull(c, pool) == c
            case Taken(d, st, _) =>
              var c' := StartNull(c, pool);
              && c'.used == c.used + [d] && c'.store.free == st.free && d in c'.store.descs
              && var x := c'.store.descs[d]; x.isNull && x.size > 0 && x.acked && x.next == 0
  {}

  // ----- when the timer gives up

  /** The timer looks at the completion and sees no progress. */
  predicate IdleCheck(w: World, a: Action) {
    a.TimerActs? && w.holder == Checking && !Progress(w.core)
  }

  /** The driver sees progress. */
  predicate SeesProgress(w: World, a: Action) {
    Progress(w.core) && (a.BeginCleanup? || (a.TimerActs? && w.holder == Checking))
  }

  /** `j` was such a check, and no progress was seen from there up to state `i`. */
  ghost predicate IdleSince(run: seq<World>, acts: seq<Action>, j: nat, i: nat) {
    && j < i < |run| && i <= |acts| && IdleCheck(run[j], acts[j])
    && forall n :: j <= n < i ==> !SeesProgress(run[n], acts[n])
  }

  lemma AckStepOf(w: World, a: Action)
    requires Enabled(w, a) && Apply(w, a).core.completionAck
    ensures !SeesProgress(w, a) && (w.core.completionAck || IdleCheck(w, a))
  {
    hide Sane, SweepFrom, PrepChain, Moved, Pend, WithAck, Split;
  }

  lemma {:induction false} AckMeansIdle(run: seq<World>, acts: seq<Action>, i: nat) returns (j: nat)
    requires IsRun(run, acts) && i < |run| && run[i].core.completionAck
    ensures IdleSince(run, acts, j, i)
    decreases i
  {
    hide Apply, Enabled, SeesProgress, IdleCheck;
    if i == 0 {
      NotAckedAtStart(run, acts);
      assert false;
    } else {
      AckStepOf(run[i - 1], acts[i - 1]);
      if run[i - 1].core.completionAck {
        j := AckMeansIdle(run, acts, i - 1);
      } else {
        j := i - 1;
      }
    }
  }

  lemma NotAckedAtStart(run: seq<World>, acts: seq<Action>)
    requires IsRun(run, acts)
    ensures !run[0].core.completionAck
  {
    hide Apply, Enabled;
    var cap, level, ids :| cap > 0 && ids != [] && NoDup(ids) && 0 !in ids
                           && run[0] == Started(cap, level, ids);
  }

  /** What a check of the timer does about a channel that makes no progress: a reset if and only if the
      acknowledge bit is set.  A reset channel counts nothing as pending for long, a restarted one starts
      again at 0. */
  lemma ResetIff(w: World, a: Action)
    requires Enabled(w, a)
    ensures !w.core.resetPending && Apply(w, a).core.resetPending <==>
            !w.core.resetPending && IdleCheck(w, a) && w.core.completionAck
    ensures IdleCheck(w, a) && !w.core.resetPending && !Apply(w, a).core.resetPending ==> Apply(w, a).core.completionAck
    ensures !w.core.resetPending && Apply(w, a).core.resetPending ==> Apply(w, a).core.pending == -0x8000_0000
    ensures a.TimerActs? && w.holder == Restarting ==>
              Apply(w, a).core.pending == 0 && Apply(w, a).core.completionPending && Apply(w, a).core.timerArmed
  {
    hide Sane, SweepFrom, PrepChain, Moved, Pend, WithAck, Split;
  }

  /** In every run the channel is reset only by a check that sees no progress, after an earlier one since
      which nobody has seen any. */
  lemma ResetTheorem(run: seq<World>, acts: seq<Action>, i: nat) returns (j: nat)
    requires IsRun(run, acts) && i < |acts|
    requires !run[i].core.resetPending && run[i + 1].core.resetPending
    ensures IdleCheck(run[i], acts[i]) && IdleSince(run, acts, j, i)
  {
    hide Apply, Enabled, IdleCheck;
    ResetIff(run[i], acts[i]);
    j := AckMeansIdle(run, acts, i);
  }
}
