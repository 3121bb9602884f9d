/**
 Runs of one I/OAT channel: the driver routines as atomic steps under their locks, clients that
 prepare, submit and acknowledge, a timer, and a device that walks the chain through the `next`
 words in memory at its own pace and reports how far it has come whenever it likes.
 */
module IoatRun {
  import opened DmaCookies
  import opened Memcpy
  import opened IoatCore
  import opened IoatSweep

  // The device: about to execute `at`, or done with `at` and following its `next` word.
  datatype Device = Fetch(at: nat) | Done(at: nat)

  // Who holds the cleanup lock.
  datatype Holder = Unlocked | Cleaning(phys: nat) | Restarting | Checking

  datatype Place = InFree | InUsed | InChain(tail: nat)

  /** One submitted transaction: the positions of its pieces among all pieces ever chained, its
      last descriptor, and the copy that was asked for. */
  datatype Tx = Tx(first: nat, last: nat, tail: nat, order: Piece)

  // What has happened so far; no step reads it.
  datatype Chained = Chained(
    stale: seq<nat>,             // used entries that completed but are not acknowledged
    live: seq<nat>,              // the rest of the used list, from the last completed entry on
    front: nat,                  // position of live[0]
    pieces: seq<Piece>,          // every piece ever chained, by position
    txs: seq<Tx>,
    completed: nat)              // number of retired transactions

  datatype Walked = Walked(
    log: seq<Piece>,             // what the device has copied
    hwAt: nat,                   // positions of hw.at, of the completion word, of Cleaning.phys
    reportedAt: nat,
    cleanAt: nat,
    restarted: bool)

  datatype History = History(
    owner: map<nat, Place>,      // where each descriptor is
    orders: map<nat, Piece>,     // what each prepared chain was asked to copy
    ch: Chained,
    dv: Walked)

  datatype World = World(core: Core, hw: Device, holder: Holder, handlers: nat, h: History)

  datatype Action =
    | DoPrep(p: Piece, ack: bool, pool: seq<nat>)
    | DoSubmit(tail: nat)
    | Acknowledge(desc: nat)     // async_tx_ack by a client
    | DeviceStep | DeviceReport
    | BeginCleanup | AbandonCleanup | FinishCleanup   // ioat1_cleanup
    | TimerFires | TimerEnters | TimerActs            // ioat1_timer_event

  // ----- steps

  /** What every step needs to be defined at all.  The invariant implies it. */
  predicate Sane(w: World) {
    && w.core.xfercap > 0 && 1 <= w.core.cookie <= INT_MAX
    && Known(w.core.store, w.core.store.free) && Has(w.core.store.descs, w.core.used)
    && w.core.used == w.h.ch.stale + w.h.ch.live && w.h.ch.live != []
    && w.hw.at in w.core.store.descs
    && (forall t :: t in w.core.prepared ==>
          w.core.prepared[t] != [] && t in w.core.store.descs && t in w.h.orders)
    && (w.holder.Cleaning? ==> w.h.dv.cleanAt >= w.h.ch.front && w.h.dv.cleanAt - w.h.ch.front < |w.h.ch.live|)
    && w.h.dv.reportedAt >= w.h.ch.front && w.h.dv.reportedAt - w.h.ch.front < |w.h.ch.live|
  }

  predicate Enabled(w: World, a: Action) {
    && Sane(w)
    && match a
       case DoPrep(_, _, pool) => GoodPool(w.core.store, pool)
       case DoSubmit(tail) => tail in w.core.prepared
       case Acknowledge(d) => d in w.core.store.descs
       case DeviceStep => w.hw.Fetch? || w.core.store.descs[w.hw.at].next in w.core.store.descs
       case DeviceReport => w.hw.Done?
       case BeginCleanup => w.holder == Unlocked
       case AbandonCleanup => w.holder.Cleaning?
       case FinishCleanup => w.holder.Cleaning?
       case TimerFires => w.core.timerArmed
       case TimerEnters => w.holder == Unlocked && w.handlers > 0
       case TimerActs => w.holder == Restarting || w.holder == Checking
  }

  function Moved(owner: map<nat, Place>, l: seq<nat>, p: Place): map<nat, Place> {
    map d | d in owner.Keys + (set i | 0 <= i < |l| :: l[i]) :: if d in l then p else owner[d]
  }

  function AfterPrep(w: World, p: Piece, ack: bool, pool: seq<nat>): World
    requires Enabled(w, DoPrep(p, ack, pool))
  {
    var core' := Prep(w.core, p, ack, pool);
    match PrepChain(w.core.store, w.core.xfercap, p, pool)
    case Failed(st) =>
      w.(core := core', h := w.h.(owner := Moved(w.h.owner, st.free, InFree)))
    case Ready(st, chain) =>
      if chain == [] then w else
      w.(core := core',
         h := w.h.(owner := Moved(w.h.owner, chain, InChain(Last(chain))),
                   orders := w.h.orders[Last(chain) := p]))
  }

  /** The pieces a chain of descriptors holds. */
  function PiecesOf(descs: map<nat, Desc>, l: seq<nat>): (ps: seq<Piece>)
    requires Has(descs, l)
    ensures |ps| == |l| && forall i :: 0 <= i < |l| ==> ps[i] == PieceOf(descs[l[i]])
  {
    if l == [] then [] else [PieceOf(descs[l[0]])] + PiecesOf(descs, l[1..])
  }

  function ChainMore(ch: Chained, chain: seq<nat>, order: Piece, cap: nat): Chained
    requires chain != [] && cap > 0
  {
    var n := |ch.pieces|;
    ch.(live := ch.live + chain, pieces := ch.pieces + Split(order, cap),
        txs := ch.txs + [Tx(n, n + |chain| - 1, Last(chain), order)])
  }

  function AfterSubmit(w: World, tail: nat): World
    requires Enabled(w, DoSubmit(tail))
  {
    var chain := w.core.prepared[tail];
    w.(core := Submit(w.core, tail),
       h := w.h.(owner := Moved(w.h.owner, chain, InUsed),
                 ch := ChainMore(w.h.ch, chain, w.h.orders[tail], w.core.xfercap)))
  }

  /** After a sweep that stopped at the live entry at position `at`. */
  function AfterSweep(w: World, core': Core, at: nat): World
    requires Sane(w) && w.h.ch.front <= at && at - w.h.ch.front < |w.h.ch.live|
  {
    var k := at - w.h.ch.front;
    var descs := w.core.store.descs;
    var before := w.core.used[..|w.h.ch.stale| + k];
    var done := w.core.used[..|w.h.ch.stale| + k + 1];
    w.(core := core', holder := Unlocked,
       h := w.h.(owner := Moved(w.h.owner, WithAck(descs, before, true), InFree),
                 ch := w.h.ch.(stale := WithAck(descs, before, false),
                               live := w.h.ch.live[k..], front := at,
                               completed := w.h.ch.completed + |Pend(descs, done)|)))
  }

  /** The address in the channel status register. */
  function Status(hw: Device): nat { if hw.Done? then hw.at else 0 }

  function AfterTimer(w: World): World
    requires Enabled(w, TimerActs)
  {
    if w.holder == Restarting then
      w.(core := TimerRestart(w.core), holder := Unlocked, hw := Fetch(Last(w.core.used)),
         h := w.h.(dv := w.h.dv.(hwAt := w.h.ch.front + |w.h.ch.live| - 1, restarted := true)))
    else if Progress(w.core) then
      AfterSweep(w, TimerCheck(w.core, Status(w.hw)), w.h.dv.reportedAt)
    else
      w.(core := TimerCheck(w.core, Status(w.hw)), holder := Unlocked,
         h := if w.core.completionAck || w.hw.Fetch? || w.hw.at == 0 then w.h
              else w.h.(dv := w.h.dv.(reportedAt := w.h.dv.hwAt)))
  }

  function Apply(w: World, a: Action): World
    requires Enabled(w, a)
  {
    match a
    case DoPrep(p, ack, pool) => AfterPrep(w, p, ack, pool)
    case DoSubmit(tail) => AfterSubmit(w, tail)
    case Acknowledge(d) =>
      w.(core := w.core.(store := Put(w.core.store, d, w.core.store.descs[d].(acked := true))))
    case DeviceStep =>
      var d := if w.hw.Fetch? then w.hw.at else w.core.store.descs[w.hw.at].next;
      w.(hw := Done(d),
         h := w.h.(dv := w.h.dv.(log := w.h.dv.log + [PieceOf(w.core.store.descs[d])],
                                 hwAt := if w.hw.Fetch? then w.h.dv.hwAt else w.h.dv.hwAt + 1)))
    case DeviceReport =>
      w.(core := w.core.(completion := w.hw.at), h := w.h.(dv := w.h.dv.(reportedAt := w.h.dv.hwAt)))
    case BeginCleanup =>
      if Progress(w.core)
      then w.(core := Preamble(w.core), holder := Cleaning(w.core.completion),
              h := w.h.(dv := w.h.dv.(cleanAt := w.h.dv.reportedAt)))
      else w
    case AbandonCleanup => w.(holder := Unlocked)
    case FinishCleanup => AfterSweep(w, Cleanup(w.core, w.holder.phys), w.h.dv.cleanAt)
    case TimerFires => w.(core := w.core.(timerArmed := false), handlers := w.handlers + 1)
    case TimerEnters =>
      match TimerTest(w.core) {
        case Restart => w.(core := w.core.(resetPending := false), holder := Restarting,
                           handlers := w.handlers - 1)
        case Check => w.(holder := Checking, handlers := w.handlers - 1)
        case Nothing => w.(handlers := w.handlers - 1)
      }
    case TimerActs => AfterTimer(w)
  }

  // ----- invariant

  /** Every descriptor is in exactly one place, and the lists say so... */
  ghost predicate OwnedLists(owner: map<nat, Place>, st: Store, used: seq<nat>) {
    && NoDup(st.free) && NoDup(used) && 0 !in st.descs
    && (forall d :: d in st.descs <==> d in owner)
    && (forall d :: d in st.free <==> d in owner && owner[d].InFree?)
    && (forall d :: d in used <==> d in owner && owner[d].InUsed?)
  }

  /** ... and so do the prepared chains. */
  ghost predicate OwnedChains(owner: map<nat, Place>, prepared: map<nat, seq<nat>>) {
    && (forall d :: d in owner && owner[d].InChain? ==>
          owner[d].tail in prepared && d in prepared[owner[d].tail])
    && (forall t, d :: t in prepared && d in prepared[t] ==> d in owner && owner[d] == InChain(t))
  }

  ghost predicate Owned(owner: map<nat, Place>, st: Store, used: seq<nat>, prepared: map<nat, seq<nat>>) {
    OwnedLists(owner, st, used) && OwnedChains(owner, prepared)
  }

  /** A prepared chain holds the pieces of its order, properly linked, and no cookie. */
  predicate ChainOk(descs: map<nat, Desc>, chain: seq<nat>, t: nat, order: Piece, cap: nat)
    requires cap > 0
  {
    && chain != [] && Last(chain) == t && NoDup(chain)
    && ChainFilled(descs, chain, Split(order, cap)) && InnerAcked(descs, chain) && NoCookies(descs, chain)
    && t in descs && descs[t].txCnt == |chain| && descs[t].len == order.len
  }

  predicate ChainsOk(descs: map<nat, Desc>, prepared: map<nat, seq<nat>>, orders: map<nat, Piece>,
                     cap: nat)
    requires cap > 0
  {
    forall t :: t in prepared ==> t in orders && ChainOk(descs, prepared[t], t, orders[t], cap)
  }

  /** The used list: leftovers without cookies, then the chain the device walks.  From the last
      completed descriptor on, `next` follows list order and ends in 0. */
  predicate UsedOk(descs: map<nat, Desc>, used: seq<nat>, ch: Chained) {
    && used == ch.stale + ch.live && ch.live != []
    && NoCookies(descs, ch.stale)
    && ch.front + |ch.live| == |ch.pieces|
    && ChainFilled(descs, ch.live, ch.pieces[ch.front..])
  }

  /** The device has reported nothing beyond where it is, the driver knows nothing beyond what was
      reported, and every address either of them holds is still on the chain. */
  predicate ReportsOk(completion: nat, lastCompletion: nat, hw: Device, holder: Holder, ch: Chained, dv: Walked) {
    && ch.front <= dv.reportedAt <= dv.hwAt && dv.hwAt - ch.front < |ch.live|
    && hw.at == ch.live[dv.hwAt - ch.front]
    && (completion == 0 || completion == ch.live[dv.reportedAt - ch.front])
    && (lastCompletion == 0 || (lastCompletion == ch.live[0] && completion != 0))
    && (lastCompletion == 0 ==> ch.front == 0 && ch.stale == [])
    && (holder.Cleaning? ==>
          && ch.front <= dv.cleanAt <= dv.reportedAt && completion != 0
          && holder.phys == ch.live[dv.cleanAt - ch.front])
  }

  /** Numbers, positions and pieces of the transactions. */
  predicate TxsOk(txs: seq<Tx>, pieces: seq<Piece>, cap: nat)
    requires cap > 0
  {
    && |pieces| == (if txs == [] then 1 else txs[|txs| - 1].last + 1)
    && forall n :: 0 <= n < |txs| ==> TxAt(txs, pieces, cap, n)
  }

  predicate TxAt(txs: seq<Tx>, pieces: seq<Piece>, cap: nat, n: nat)
    requires cap > 0 && n < |txs|
  {
    && txs[n].first == (if n == 0 then 1 else txs[n - 1].last + 1)
    && txs[n].first <= txs[n].last < |pieces|
    && pieces[txs[n].first..txs[n].last + 1] == Split(txs[n].order, cap)
  }

  function Tails(txs: seq<Tx>): (t: seq<nat>)
    ensures |t| == |txs| && forall i :: 0 <= i < |txs| ==> t[i] == txs[i].tail
  {
    if txs == [] then [] else [txs[0].tail] + Tails(txs[1..])
  }

  /** First in, first out: the cookies on the chain are those of the transactions not yet retired,
      oldest first, each on its own last descriptor; the retired ones lie at or before the front. */
  predicate FifoOk(descs: map<nat, Desc>, ch: Chained) {
    && ch.completed <= |ch.txs| && Has(descs, ch.live)
    && Pend(descs, ch.live) == Tails(ch.txs[ch.completed..])
    && (forall n :: ch.completed <= n < |ch.txs| ==> PendingAt(descs, ch, n))
    && (forall n :: 0 <= n < ch.completed ==> ch.txs[n].last <= ch.front)
  }

  predicate PendingAt(descs: map<nat, Desc>, ch: Chained, n: nat)
    requires n < |ch.txs|
  {
    var t := ch.txs[n];
    && ch.front < t.last && t.last - ch.front < |ch.live| && ch.live[t.last - ch.front] == t.tail
    && t.tail in descs && descs[t.tail].cookie == CookieOf(n + 1) && descs[t.tail].len == t.order.len
  }

  /** The device copies exactly the chained pieces, in order, and has executed whatever it has
      reported, unless it was restarted. */
  predicate LogOk(hw: Device, completion: nat, pieces: seq<Piece>, dv: Walked) {
    !dv.restarted ==>
      var n := if hw.Done? then dv.hwAt + 1 else dv.hwAt;
      && n <= |pieces| && dv.log == pieces[..n]
      && (completion != 0 ==> dv.reportedAt < n)
  }

  /** Accounting: `active` is the load of the chain, and a clear pending bit means none. */
  predicate Accounted(active: int, completionPending: bool, descs: map<nat, Desc>, used: seq<nat>) {
    && Has(descs, used)
    && active == Load(descs, used)
    && (!completionPending ==> Pend(descs, used) == [])
  }

  /** Watchdog: while a bit is set, the timer is armed or its handler is on its way. */
  predicate Watched(c: Core, handlers: nat, holder: Holder) {
    c.completionPending || c.resetPending ==>
      c.timerArmed || handlers > 0 || holder.Restarting? || holder.Checking?
  }

  predicate CookiesOk(c: Core, ch: Chained) {
    c.cookie == CookieOf(|ch.txs|) && c.completedCookie == CookieOf(ch.completed)
  }

  ghost predicate Inv(w: World) {
    && w.core.xfercap > 0
    && Owned(w.h.owner, w.core.store, w.core.used, w.core.prepared)
    && NoCookies(w.core.store.descs, w.core.store.free)
    && ChainsOk(w.core.store.descs, w.core.prepared, w.h.orders, w.core.xfercap)
    && UsedOk(w.core.store.descs, w.core.used, w.h.ch)
    && ReportsOk(w.core.completion, w.core.lastCompletion, w.hw, w.holder, w.h.ch, w.h.dv)
    && TxsOk(w.h.ch.txs, w.h.ch.pieces, w.core.xfercap)
    && FifoOk(w.core.store.descs, w.h.ch)
    && CookiesOk(w.core, w.h.ch)
    && LogOk(w.hw, w.core.completion, w.h.ch.pieces, w.h.dv)
    && Accounted(w.core.active, w.core.completionPending, w.core.store.descs, w.core.used)
    && Watched(w.core, w.handlers, w.holder)
  }

  lemma InvSane(w: World)
    requires Inv(w)
    ensures Sane(w)
  {
    assert forall t :: t in w.core.prepared ==> Last(w.core.prepared[t]) == t;
  }
}
