/**
 What holds in every run of an I/OAT channel.
 */
module IoatTheorems {
  import opened DmaCookies
  import opened Memcpy
  import opened IoatCore
  import opened IoatSweep
  import opened IoatRun
  import opened IoatProof
  import opened IoatCleanup

  // ----- the remaining steps

  lemma FinishCleanupInv(w: World)
    requires Inv(w) && Enabled(w, FinishCleanup)
    ensures Inv(Apply(w, FinishCleanup))
  {
    hide Owned, NoCookies, ChainsOk, UsedOk, TxsOk, FifoOk, LogOk, Accounted, NoDup,
         AfterSweep, AfterPrep, AfterSubmit, AfterTimer, Cleanup;
    SweepInv(w, w.core, w.h.dv.cleanAt);
  }

  lemma TimerSweepInv(w: World)
    requires Inv(w) && Enabled(w, TimerActs) && w.holder == Checking && Progress(w.core)
    ensures Inv(Apply(w, TimerActs))
  {
    hide Owned, NoCookies, ChainsOk, UsedOk, TxsOk, FifoOk, LogOk, Accounted, NoDup,
         AfterSweep, AfterPrep, AfterSubmit, Cleanup;
    SweepInv(w, Preamble(w.core), w.h.dv.reportedAt);
  }

  lemma TimerQuietInv(w: World)
    requires Inv(w) && Enabled(w, TimerActs) && (w.holder == Restarting || !Progress(w.core))
    ensures Inv(Apply(w, TimerActs))
  {
    hide Owned, NoCookies, ChainsOk, TxsOk, FifoOk, ChainFilled, NoDup, Has, Load, Pend,
         AfterSweep, AfterPrep, AfterSubmit, Cleanup;
    DeviceStaysOnChain(w);
  }

  lemma PrepInv(w: World, p: Piece, ack: bool, pool: seq<nat>)
    requires Inv(w) && Enabled(w, DoPrep(p, ack, pool))
    ensures Inv(Apply(w, DoPrep(p, ack, pool)))
  {
    hide Inv, Apply, Supply, Split;
    assert w.core.xfercap > 0;
    if |Split(p, w.core.xfercap)| <= |Supply(w.core.store, pool)| {
      PrepSucceedsInv(w, p, ack, pool);
    } else {
      PrepFailsInv(w, p, ack, pool);
    }
  }

  /** Every step keeps the invariant. */
  lemma StepInv(w: World, a: Action)
    requires Inv(w) && Enabled(w, a)
    ensures Inv(Apply(w, a))
  {
    hide Inv, Apply, Sane;
    match a {
      case DoPrep(p, ack, pool) => PrepInv(w, p, ack, pool);
      case DoSubmit(tail) => SubmitInv(w, tail);
      case Acknowledge(d) => AcknowledgeInv(w, d);
      case DeviceStep => DeviceStepInv(w);
      case FinishCleanup => FinishCleanupInv(w);
      case TimerActs =>
        if w.holder == Checking && Progress(w.core) { TimerSweepInv(w); } else { TimerQuietInv(w); }
      case _ => QuietStepInv(w, a);
    }
  }

  // ----- runs

  /** A channel whose resources were just allocated, with descriptors `ids`, after
      ioat1_dma_start_null_desc has put the first one on the chain. */
  function Started(cap: nat, level: int, ids: seq<nat>): World
    requires ids != []
  {
    var descs: map<nat, Desc> := map d | d in ids :: Zeroed;
    var c := Core(cap, level, Store(descs, ids), [], map[], CookieOf(0), CookieOf(0), 0, 0,
                  false, false, false, false, 0, 0);
    World(StartNull(c, []), Fetch(ids[0]), Unlocked, 0,
          History(map d | d in ids :: if d == ids[0] then InUsed else InFree, map[],
                  Chained([], [ids[0]], 0, [Piece(0, 0, 0)], [], 0),
                  Walked([], 0, 0, 0, false)))
  }

  lemma StartedStore(cap: nat, level: int, ids: seq<nat>)
    requires ids != [] && NoDup(ids)
    ensures var c := Started(cap, level, ids).core;
            && c.used == [ids[0]] && c.store.free == ids[1..]
            && (forall d :: d in c.store.descs <==> d in ids)
            && (forall d :: d in ids ==> c.store.descs[d].cookie == 0 && c.store.descs[d].next == 0)
            && PieceOf(c.store.descs[ids[0]]) == Piece(0, 0, 0)
            && c == Core(cap, level, c.store, [ids[0]], map[], CookieOf(0), CookieOf(0), 0, 0,
                         false, false, false, false, 0, 0)
  {}

  lemma StartedChain(descs: map<nat, Desc>, d: nat, ch: Chained)
    requires d in descs && descs[d].cookie == 0 && descs[d].next == 0
    requires PieceOf(descs[d]) == Piece(0, 0, 0)
    requires ch == Chained([], [d], 0, [Piece(0, 0, 0)], [], 0)
    ensures UsedOk(descs, [d], ch) && FifoOk(descs, ch) && Accounted(0, false, descs, [d])
  {
    LoadNone(descs, [d]);
    assert LinkedAt(descs, [d], 0);
  }

  lemma NoDupTail(ids: seq<nat>)
    requires ids != [] && NoDup(ids)
    ensures NoDup(ids[1..]) && NoDup([ids[0]]) && ids[0] !in ids[1..]
    ensures forall d :: d in ids <==> d == ids[0] || d in ids[1..]
  {
    assert ids == [ids[0]] + ids[1..];
  }

  lemma StartedOwned(owner: map<nat, Place>, st: Store, ids: seq<nat>)
    requires ids != [] && NoDup(ids) && 0 !in ids && st.free == ids[1..]
    requires forall d :: d in st.descs <==> d in ids
    requires owner == map d | d in ids :: if d == ids[0] then InUsed else InFree
    ensures Owned(owner, st, [ids[0]], map[])
  {
    NoDupTail(ids);
    hide NoDup;
  }

  lemma StartedInv(cap: nat, level: int, ids: seq<nat>)
    requires cap > 0 && ids != [] && NoDup(ids) && 0 !in ids
    ensures Inv(Started(cap, level, ids))
  {
    hide StartNull, NoDup, Owned, UsedOk, FifoOk, Accounted, PieceOf;
    StartedStore(cap, level, ids);
    var w := Started(cap, level, ids);
    StartedOwned(w.h.owner, w.core.store, ids);
    StartedChain(w.core.store.descs, ids[0], w.h.ch);
  }

  ghost predicate IsRun(run: seq<World>, acts: seq<Action>) {
    && |run| == |acts| + 1
    && (exists cap, level, ids ::
          cap > 0 && ids != [] && NoDup(ids) && 0 !in ids && run[0] == Started(cap, level, ids))
    && forall i :: 0 <= i < |acts| ==> Enabled(run[i], acts[i]) && run[i + 1] == Apply(run[i], acts[i])
  }

  lemma {:induction false} RunInv(run: seq<World>, acts: seq<Action>, i: nat)
    requires IsRun(run, acts) && i < |run|
    ensures Inv(run[i])
  {
    hide Inv, Apply, Enabled;
    if i == 0 {
      var cap, level, ids :| cap > 0 && ids != [] && NoDup(ids) && 0 !in ids
                             && run[0] == Started(cap, level, ids);
      StartedInv(cap, level, ids);
    } else {
      RunInv(run, acts, i - 1);
      StepInv(run[i - 1], acts[i - 1]);
    }
  }

  // ----- theorems

  /** What the steps need to be defined holds in every run, so it keeps no step back. */
  lemma AlwaysSane(run: seq<World>, acts: seq<Action>, i: nat)
    requires IsRun(run, acts) && i < |run|
    ensures Sane(run[i])
  {
    hide IsRun, Inv, Sane;
    RunInv(run, acts, i);
    InvSane(run[i]);
  }

  /** Which list a descriptor is on: exactly one of free, used, and one prepared chain. */
  ghost predicate OnePlace(c: Core, d: nat) {
    && (d in c.store.free ==> d !in c.used)
    && (d in c.store.free || d in c.used ==> forall t :: t in c.prepared ==> d !in c.prepared[t])
    && (d !in c.store.free && d !in c.used ==> exists t :: t in c.prepared && d in c.prepared[t])
    && (forall t, u :: t in c.prepared && u in c.prepared && d in c.prepared[t] && d in c.prepared[u]
                       ==> t == u)
  }

  /** From entry `k` of the used list on, the words that the device follows are the list. */
  predicate LinkedFrom(c: Core, k: nat) {
    && k < |c.used| && Has(c.store.descs, c.used)
    && forall j :: k <= j < |c.used| ==> LinkedAt(c.store.descs, c.used, j)
  }

  /** The channel chain invariant: no descriptor is lost or shared, the used list never empties,
      and the last completed descriptor stays on it, heading an intact chain, which before the first
      completion is the whole list. */
  lemma ChainTheorem(run: seq<World>, acts: seq<Action>, i: nat)
    requires IsRun(run, acts) && i < |run|
    ensures var c := run[i].core;
            && c.used != [] && NoDup(c.used) && NoDup(c.store.free)
            && (forall d :: d in c.store.descs ==> OnePlace(c, d))
            && (c.lastCompletion != 0 ==> c.lastCompletion !in c.store.free)
            && exists k: nat :: LinkedFrom(c, k) && (if c.lastCompletion == 0 then k == 0 else c.used[k] == c.lastCompletion)
  {
    RunInv(run, acts, i);
    var w := run[i];
    ListsTheorem(w);
    LinksTheorem(w);
  }

  lemma ListsTheorem(w: World)
    requires Inv(w)
    ensures var c := w.core;
            && NoDup(c.used) && NoDup(c.store.free)
            && (forall d :: d in c.store.descs ==> OnePlace(c, d))
            && (forall d :: d in c.used ==> d !in c.store.free)
  {
    hide ChainsOk, UsedOk, ReportsOk, TxsOk, FifoOk, LogOk, Accounted, NoDup, NoCookies;
    assert Owned(w.h.owner, w.core.store, w.core.used, w.core.prepared);
    forall d | d in w.core.store.descs ensures OnePlace(w.core, d) {
      if d !in w.core.store.free && d !in w.core.used {
        assert w.h.owner[d].InChain? && d in w.core.prepared[w.h.owner[d].tail];
      }
    }
  }

  lemma LinksTheorem(w: World)
    requires Inv(w)
    ensures var c := w.core;
            && c.used != [] && (c.lastCompletion != 0 ==> c.lastCompletion in c.used)
            && exists k: nat :: LinkedFrom(c, k) && (if c.lastCompletion == 0 then k == 0 else c.used[k] == c.lastCompletion)
  {
    hide Owned, ChainsOk, TxsOk, FifoOk, LogOk, NoDup, NoCookies;
    var ch, c := w.h.ch, w.core;
    var k := |ch.stale|;
    assert c.used[k] == ch.live[0];
    assert Has(c.store.descs, c.used);
    forall j | k <= j < |c.used| ensures LinkedAt(c.store.descs, c.used, j) {
      assert LinkedAt(c.store.descs, ch.live, j - k) && c.used[j] == ch.live[j - k];
    }
    assert LinkedFrom(c, k);
  }

  /** Accounting and watchdog, in every run. */
  lemma WatchdogTheorem(run: seq<World>, acts: seq<Action>, i: nat)
    requires IsRun(run, acts) && i < |run|
    ensures var w, c := run[i], run[i].core;
            && Has(c.store.descs, c.used) && c.active == Load(c.store.descs, c.used)
            && (!c.completionPending ==> forall d :: d in c.used ==> c.store.descs[d].cookie == 0)
            && (c.completionPending || c.resetPending ==>
                  c.timerArmed || w.handlers > 0 || w.holder.Restarting? || w.holder.Checking?)
  {
    RunInv(run, acts, i);
    var c := run[i].core;
    hide Owned, ChainsOk, UsedOk, ReportsOk, TxsOk, FifoOk, LogOk, NoCookies, Load;
    if !c.completionPending {
      forall d | d in c.used ensures d in c.store.descs && c.store.descs[d].cookie == 0 {
        PendMembers(c.store.descs, c.used, d);
      }
    }
  }

  /** What a client may conclude from the cookies of the channel about transaction `n`: it is
      retired if and only if the status test says so. */
  lemma StatusTheorem(run: seq<World>, acts: seq<Action>, i: nat, n: nat)
    requires IsRun(run, acts) && i < |run|
    requires var ch := run[i].h.ch; |ch.txs| - ch.completed < INT_MAX && Recent(n, |ch.txs|)
    ensures run[i].h.ch.completed <= |run[i].h.ch.txs|
    ensures IsComplete(CookieOf(n), run[i].core.completedCookie, run[i].core.cookie) == Success
            <==> n <= run[i].h.ch.completed
  {
    RunInv(run, acts, i);
    hide Owned, ChainsOk, UsedOk, ReportsOk, TxsOk, LogOk, NoCookies, Accounted, IsComplete, CookieOf;
    StatusExact(n, run[i].h.ch.completed, |run[i].h.ch.txs|);
  }

  /** The pieces of transaction `m`, counted from 1, lie in the device's log in one run. */
  ghost predicate Executed(w: World, m: nat) {
    && 1 <= m <= |w.h.ch.txs| && w.core.xfercap > 0
    && var t := w.h.ch.txs[m - 1];
       && t.first <= t.last < |w.h.dv.log|
       && w.h.dv.log[t.first..t.last + 1] == Split(t.order, w.core.xfercap)
  }

  lemma RetiredExecuted(w: World, m: nat)
    requires Inv(w) && !w.h.dv.restarted && 1 <= m <= w.h.ch.completed
    ensures Executed(w, m)
  {
    hide Owned, ChainsOk, NoCookies, Accounted, ChainFilled, Split, Pend, Tails;
    var ch := w.h.ch;
    var t := ch.txs[m - 1];
    assert TxAt(ch.txs, ch.pieces, w.core.xfercap, m - 1);
    assert t.last <= ch.front <= w.h.dv.hwAt;
    ReportedIsDone(w);
    var n := |w.h.dv.log|;
    assert n <= |ch.pieces| && w.h.dv.log == ch.pieces[..n];
    assert ch.pieces[..n][t.first..t.last + 1] == ch.pieces[t.first..t.last + 1];
  }

  /** A transaction is retired only after its last descriptor was executed. */
  lemma ReportedIsDone(w: World)
    requires Inv(w) && !w.h.dv.restarted && w.h.ch.completed > 0
    ensures w.h.ch.front < |w.h.dv.log|
  {
    hide Owned, ChainsOk, NoCookies, Accounted, ChainFilled, Split, Pend, Tails;
    assert TxAt(w.h.ch.txs, w.h.ch.pieces, w.core.xfercap, 0);
    assert w.h.ch.txs[0].last <= w.h.ch.front;
  }

  /** Waiting for the last cookie suffices.  If the status of transaction `n` is success, then every
      transaction up to `n`, of whatever submitter, has been executed in full. */
  lemma LastCookieSuffices(run: seq<World>, acts: seq<Action>, i: nat, n: nat, m: nat)
    requires IsRun(run, acts) && i < |run| && !run[i].h.dv.restarted
    requires var ch := run[i].h.ch; |ch.txs| - ch.completed < INT_MAX && n <= |ch.txs|
    requires IsComplete(CookieOf(n), run[i].core.completedCookie, run[i].core.cookie) == Success
    requires 1 <= m <= n
    ensures Executed(run[i], m)
  {
    RunInv(run, acts, i);
    if Recent(n, |run[i].h.ch.txs|) { StatusTheorem(run, acts, i, n); }
    hide IsRun, Inv, IsComplete, CookieOf, Executed;
    RetiredExecuted(run[i], m);
  }

  /** Entry `j` of a slice of the log is an entry of the log. */
  lemma SliceCovered(log: seq<Piece>, lo: nat, hi: nat, p: Piece, x: nat)
    requires lo <= hi <= |log| && CoveredBy(log[lo..hi], p, x)
    ensures CoveredBy(log, p, x)
  {
    var j :| 0 <= j < |log[lo..hi]| && Covers(log[lo..hi][j], p, x);
    assert Covers(log[lo + j], p, x);
  }

  /** From cookie to bytes: if the status of transaction `n` is success, the destination of every
      transaction `m` up to `n` holds what its source held when the device came to it, provided
      nothing that the device copied from then on wrote to either buffer. */
  lemma StatusMeansCopied<T>(run: seq<World>, acts: seq<Action>, i: nat, n: nat, m: nat, mem: seq<T>)
    requires IsRun(run, acts) && i < |run| && !run[i].h.dv.restarted
    requires var ch := run[i].h.ch; |ch.txs| - ch.completed < INT_MAX && n <= |ch.txs|
    requires IsComplete(CookieOf(n), run[i].core.completedCookie, run[i].core.cookie) == Success
    requires 1 <= m <= n
    requires var t := run[i].h.ch.txs[m - 1];
             && t.first <= |run[i].h.dv.log|
             && AllFit(mem, run[i].h.dv.log[t.first..])
             && Fits(mem, t.order) && Disjoint(t.order) && Harmless(run[i].h.dv.log[t.first..], t.order)
    ensures var t := run[i].h.ch.txs[m - 1];
            var p := t.order;
            Exec(mem, run[i].h.dv.log[t.first..])[p.dst..p.dst + p.len] == mem[p.src..p.src + p.len]
  {
    LastCookieSuffices(run, acts, i, n, m);
    var t, cap := run[i].h.ch.txs[m - 1], run[i].core.xfercap;
    var log := run[i].h.dv.log[t.first..];
    assert log[..t.last + 1 - t.first] == run[i].h.dv.log[t.first..t.last + 1];
    hide IsRun, Apply, Exec, Split, Harmless, AllFit, CoveredBy;
    forall x: nat | x < t.order.len ensures CoveredBy(log, t.order, x) {
      SplitCovers(t.order, cap, x);
      SliceCovered(log, 0, t.last + 1 - t.first, t.order, x);
    }
    CopiedByParts(mem, log, t.order);
  }

  /** What ioat_dma_unmap computes from a descriptor is defined and equals `p`. */
  predicate Unmaps(d: Desc, p: Piece) {
    var last := PieceOf(d);
    && last.len <= d.len && d.len - last.len <= last.src && d.len - last.len <= last.dst
    && Unmap(last, d.len) == p
  }

  lemma TailUnmaps(descs: map<nat, Desc>, used: seq<nat>, ch: Chained, cap: nat, n: nat)
    requires cap > 0 && UsedOk(descs, used, ch) && n < |ch.txs|
    requires TxAt(ch.txs, ch.pieces, cap, n) && PendingAt(descs, ch, n)
    ensures Unmaps(descs[ch.txs[n].tail], ch.txs[n].order)
  {
    hide NoCookies;
    var t := ch.txs[n];
    NextPiece(descs, ch, t.last - ch.front);
    hide ChainFilled;
    UnmapUndoesSplit(t.order, cap);
    var ps := ch.pieces[t.first..t.last + 1];
    assert ps[|ps| - 1] == ch.pieces[t.last];
    hide Split;
  }

  /** ioat_dma_unmap is given back exactly the buffers of the order it retires. */
  lemma UnmapTheorem(run: seq<World>, acts: seq<Action>, i: nat, n: nat)
    requires IsRun(run, acts) && i < |run|
    requires run[i].h.ch.completed <= n < |run[i].h.ch.txs|
    ensures var t, descs := run[i].h.ch.txs[n], run[i].core.store.descs;
            t.tail in descs && Unmaps(descs[t.tail], t.order)
  {
    hide IsRun, Owned, ChainsOk, UsedOk, NoCookies, Accounted, Pend, Tails, LogOk, ReportsOk, TxAt, Unmaps;
    RunInv(run, acts, i);
    var w, ch := run[i], run[i].h.ch;
    assert TxAt(ch.txs, ch.pieces, w.core.xfercap, n) && PendingAt(w.core.store.descs, ch, n);
    TailUnmaps(w.core.store.descs, w.core.used, ch, w.core.xfercap, n);
  }
}
