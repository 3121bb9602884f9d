/**
 Version 1 of the I/OAT driver: the state of one channel and what each driver routine does to
 it, as functions on values.  Module IoatChannel holds the routines themselves.

 A descriptor is named by its bus address, which is never 0.  `next == 0` ends a chain.
 */
module IoatCore {
  import opened DmaCookies
  import opened Memcpy

  datatype Desc = Desc(
    // the part the device reads
    next: nat, src: nat, dst: nat, size: nat, isNull: bool, txCnt: nat,
    // the part only the driver knows: txd.cookie, DMA_CTRL_ACK, len
    cookie: nat, acked: bool, len: nat)

  /** A descriptor as ioat_dma_alloc_descriptor returns it. */
  const Zeroed: Desc := Desc(0, 0, 0, 0, false, 0, 0, false, 0)

  const INT_MIN: int := -0x8000_0000

  /** What the device copies when it executes the descriptor. */
  function PieceOf(d: Desc): Piece {
    if d.isNull then Piece(0, 0, 0) else Piece(d.src, d.dst, d.size)
  }

  /** The descriptors of a channel and its list of free ones (free_desc). */
  datatype Store = Store(descs: map<nat, Desc>, free: seq<nat>)

  datatype Core = Core(
    xfercap: nat,
    pendingLevel: int,
    store: Store,
    used: seq<nat>,                 // used_desc
    prepared: map<nat, seq<nat>>,   // tx_list of every prepared, not yet submitted, tail
    cookie: nat,                    // last cookie handed out
    completedCookie: nat,
    active: int,
    pending: int,
    completionPending: bool,        // IOAT_COMPLETION_PENDING
    completionAck: bool,            // IOAT_COMPLETION_ACK
    resetPending: bool,             // IOAT_RESET_PENDING
    timerArmed: bool,
    completion: nat,                // *chan->completion, stored by the device
    lastCompletion: nat)

  predicate Known(st: Store, s: seq<nat>) {
    forall i :: 0 <= i < |s| ==> s[i] in st.descs
  }

  predicate NoDup(s: seq<nat>) {
    forall i, j :: 0 <= i < j < |s| ==> s[i] != s[j]
  }

  // ----- ioat1_dma_get_next_descriptor

  datatype Taken = NoDesc | Taken(desc: nat, store: Store, pool: seq<nat>)

  /** `pool` lists the descriptors that allocation would still deliver before it fails. */
  function TakeNext(st: Store, pool: seq<nat>): Taken {
    if st.free != [] then Taken(st.free[0], st.(free := st.free[1..]), pool)
    else if pool != [] then Taken(pool[0], st.(descs := st.descs[pool[0] := Zeroed]), pool[1..])
    else NoDesc
  }

  // ----- ioat1_dma_start_null_desc

  function StartNull(c: Core, pool: seq<nat>): Core
    requires Known(c.store, c.store.free)
  {
    match TakeNext(c.store, pool)
    case NoDesc => c
    case Taken(d, st, _) =>
      c.(store := st.(descs := st.descs[d := st.descs[d].(isNull := true, next := 0, src := 0,
                                                          dst := 0, size := 1, acked := true)]),
         used := c.used + [d])
  }

  // ----- ioat1_dma_prep_memcpy

  datatype Prepared = Failed(store: Store) | Ready(store: Store, chain: seq<nat>)

  function Fill(x: Desc, p: Piece): Desc {
    x.(size := p.len, isNull := false, src := p.src, dst := p.dst)
  }

  function Put(st: Store, d: nat, x: Desc): Store { st.(descs := st.descs[d := x]) }

  function Link(st: Store, d: nat, n: nat): Store
    requires d in st.descs
  {
    Put(st, d, st.descs[d].(next := n))
  }

  /** What is left to copy after one full piece. */
  function Rest(p: Piece, cap: nat): Piece
    requires cap < p.len
  {
    Piece(p.src + cap, p.dst + cap, p.len - cap)
  }

  /** `d` filled with a full piece, before the next descriptor is asked for. */
  function Filled(st: Store, d: nat, p: Piece, cap: nat): Store
    requires d in st.descs
  {
    Put(st, d, Fill(st.descs[d], Piece(p.src, p.dst, cap)).(acked := true))
  }

  /** One turn of the loop for descriptor `d`, and the turns after it.  `p` is what remains
      to be copied; `chain` the descriptors already filled. */
  function PrepFrom(st: Store, cap: nat, chain: seq<nat>, d: nat, p: Piece, pool: seq<nat>): Prepared
    requires cap > 0 && d in st.descs && Known(st, st.free)
    decreases p.len
  {
    if p.len > cap then
      match TakeNext(Filled(st, d, p, cap), pool)
      case NoDesc =>
        var st1 := Link(Filled(st, d, p, cap), d, 0);
        Failed(st1.(free := (chain + [d]) + st1.free))
      case Taken(n, st1, pool') =>
        PrepFrom(Link(st1, d, n), cap, chain + [d], n, Rest(p, cap), pool')
    else
      Ready(Link(Put(st, d, Fill(st.descs[d], p)), d, 0), chain + [d])
  }

  function PrepChain(st: Store, cap: nat, p: Piece, pool: seq<nat>): Prepared
    requires cap > 0 && Known(st, st.free)
  {
    match TakeNext(st, pool)
    case NoDesc => Failed(st)
    case Taken(d, st1, pool') => PrepFrom(st1, cap, [], d, p, pool')
  }

  /** After the loop: flags, length and piece count go into the last descriptor. */
  function Prep(c: Core, p: Piece, ack: bool, pool: seq<nat>): Core
    requires c.xfercap > 0 && Known(c.store, c.store.free)
  {
    match PrepChain(c.store, c.xfercap, p, pool)
    case Failed(st) => c.(store := st)
    case Ready(st, chain) =>
      if chain == [] || Last(chain) !in st.descs then c else
      var t := Last(chain);
      c.(store := Put(st, t, st.descs[t].(acked := ack, len := p.len, txCnt := |chain|)),
         prepared := c.prepared[t := chain])
  }

  function Last(s: seq<nat>): nat
    requires s != []
  {
    s[|s| - 1]
  }

  // ----- ioat1_tx_submit

  predicate CanSubmit(c: Core, tail: nat) {
    && 1 <= c.cookie <= INT_MAX
    && tail in c.prepared && tail in c.store.descs && c.prepared[tail] != []
    && c.used != [] && Last(c.used) in c.store.descs
  }

  function Submit(c: Core, tail: nat): Core
    requires CanSubmit(c, tail)
  {
    var chain := c.prepared[tail];
    var x := c.store.descs[tail];
    var pending := c.pending + x.txCnt;
    c.(cookie := NextCookie(c.cookie),
       store := Link(Put(c.store, tail, x.(cookie := NextCookie(c.cookie))), Last(c.used), chain[0]),
       used := c.used + chain,
       prepared := c.prepared - {tail},
       completionPending := true,
       timerArmed := c.timerArmed || !c.completionPending,
       active := c.active + x.txCnt,
       pending := if pending >= c.pendingLevel then 0 else pending)
  }

  // ----- ioat_cleanup_preamble and __cleanup

  predicate Progress(c: Core) { c.completion != c.lastCompletion }

  function Preamble(c: Core): Core {
    if Progress(c) then c.(completionAck := false, timerArmed := true) else c
  }

  /** The variables of the loop of __cleanup. */
  datatype Sweep = Sweep(store: Store, kept: seq<nat>, completedCookie: nat, active: int,
                         completionPending: bool)

  /** The part of the loop body that retires a transaction. */
  function Retire(s: Sweep, d: nat): (r: Sweep)
    requires d in s.store.descs
    ensures r.store.descs.Keys == s.store.descs.Keys
  {
    var x := s.store.descs[d];
    if x.cookie == 0 then s
    else s.(completedCookie := x.cookie, active := s.active - x.txCnt,
            store := Put(s.store, d, x.(cookie := 0)))
  }

  /** The loop of __cleanup over `rest`; `kept` are the entries left on the list so far. */
  function SweepFrom(s: Sweep, rest: seq<nat>, phys: nat): Sweep
    requires Known(s.store, rest)
    decreases |rest|
  {
    if rest == [] then s
    else
      var d := rest[0];
      var s1 := Retire(s, d);
      if d == phys then
        s1.(kept := s.kept + rest, completionPending := s1.completionPending && |rest| > 1)
      else if s1.store.descs[d].acked then
        SweepFrom(s1.(store := s1.store.(free := s1.store.free + [d])), rest[1..], phys)
      else
        SweepFrom(s1.(kept := s1.kept + [d]), rest[1..], phys)
  }

  function Cleanup(c: Core, phys: nat): Core
    requires Known(c.store, c.used)
  {
    var s := SweepFrom(Sweep(c.store, [], c.completedCookie, c.active, c.completionPending),
                       c.used, phys);
    c.(store := s.store, used := s.kept, completedCookie := s.completedCookie, active := s.active,
       completionPending := s.completionPending, lastCompletion := phys)
  }

  // ----- ioat1_timer_event

  datatype TimerBranch = Restart | Check | Nothing

  function TimerTest(c: Core): TimerBranch {
    if c.resetPending then Restart else if c.completionPending then Check else Nothing
  }

  /** The restart branch, apart from the device registers. */
  function TimerRestart(c: Core): Core {
    c.(pending := 0, completionPending := true, timerArmed := true)
  }

  /** The completion branch.  `status` is the address that the channel status register shows. */
  function TimerCheck(c: Core, status: nat): Core
    requires Known(c.store, c.used)
  {
    if Progress(c) then Cleanup(Preamble(c), c.completion)
    else if c.completionAck then c.(pending := INT_MIN, resetPending := true, timerArmed := true)
    else c.(completion := if status != 0 then status else c.completion,
            completionAck := true, timerArmed := true)
  }

  // ----- what prep does

  /** `pool` holds distinct new addresses. */
  predicate GoodPool(st: Store, pool: seq<nat>) {
    && NoDup(pool)
    && forall i :: 0 <= i < |pool| ==> pool[i] != 0 && pool[i] !in st.descs
  }

  /** Entry `i` of `ids` points to the entry after it, the last one to nothing. */
  predicate LinkedAt(descs: map<nat, Desc>, ids: seq<nat>, i: nat)
    requires i < |ids| && ids[i] in descs
  {
    descs[ids[i]].next == if i + 1 < |ids| then ids[i + 1] else 0
  }

  /** The descriptors of one filled chain: contents, links and end mark, nothing submitted. */
  predicate ChainFilled(descs: map<nat, Desc>, ids: seq<nat>, ps: seq<Piece>) {
    && |ids| == |ps|
    && (forall i :: 0 <= i < |ids| ==> ids[i] in descs)
    && (forall i :: 0 <= i < |ids| ==> PieceOf(descs[ids[i]]) == ps[i])
    && (forall i :: 0 <= i < |ids| ==> LinkedAt(descs, ids, i))
  }

  /** The client holds only the last descriptor of a chain: the others may be freed at once. */
  predicate InnerAcked(descs: map<nat, Desc>, ids: seq<nat>) {
    forall i :: 0 <= i < |ids| - 1 ==> ids[i] in descs && descs[ids[i]].acked
  }

  predicate NoCookies(descs: map<nat, Desc>, ids: seq<nat>) {
    forall i :: 0 <= i < |ids| ==> ids[i] in descs && descs[ids[i]].cookie == 0
  }

  /** Only `ids` were touched, and they are all present. */
  ghost predicate OnlyTouched(a: map<nat, Desc>, b: map<nat, Desc>, ids: seq<nat>) {
    && (forall x :: x in a && x !in ids ==> x in b && b[x] == a[x])
    && (forall x :: x in b ==> x in a || x in ids)
    && NoCookies(b, ids)
  }

  /** The order in which get_next_descriptor will hand descriptors out. */
  function Supply(st: Store, pool: seq<nat>): seq<nat> { st.free + pool }

  function Drop(s: seq<nat>, k: nat): seq<nat> { if k <= |s| then s[k..] else [] }

  /** `d` has been taken off a free list of distinct, retired descriptors. */
  predicate Takeable(st: Store, d: nat) {
    && d in st.descs && st.descs[d].cookie == 0 && d !in st.free
    && NoDup(st.free) && NoCookies(st.descs, st.free)
  }

  ghost predicate PrepDone(st: Store, cap: nat, chain: seq<nat>, ids: seq<nat>, p: Piece, r: Prepared)
    requires cap > 0
  {
    && r.Ready? && r.chain == chain + ids
    && ChainFilled(r.store.descs, ids, Split(p, cap)) && InnerAcked(r.store.descs, ids)
    && OnlyTouched(st.descs, r.store.descs, ids)
  }

  ghost predicate PrepGaveUp(st: Store, chain: seq<nat>, ids: seq<nat>, r: Prepared) {
    && r.Failed? && r.store.free == chain + ids
    && OnlyTouched(st.descs, r.store.descs, ids)
  }

  /** The state in which the next turn of the loop starts: `d` filled and linked to `n`. */
  ghost predicate Turned(st: Store, cap: nat, d: nat, p: Piece, n: nat, st3: Store) {
    && st3.free == Drop(st.free, 1)
    && d in st.descs && d in st3.descs && n in st3.descs && d != n
    && (forall x :: x in st3.descs ==> x in st.descs || x == n)
    && (forall x :: x in st.descs && x != d ==> x in st3.descs && st3.descs[x] == st.descs[x])
    && PieceOf(st3.descs[d]) == Piece(p.src, p.dst, cap)
    && st3.descs[d].next == n && st3.descs[d].cookie == st.descs[d].cookie && st3.descs[d].acked
  }

  lemma TakeTurns(st: Store, cap: nat, d: nat, p: Piece, pool: seq<nat>, t: Taken)
    requires Known(st, st.free) && GoodPool(st, pool) && Takeable(st, d)
    requires t == TakeNext(Filled(st, d, p, cap), pool) && t.Taken?
    ensures d in t.store.descs
    ensures var st3 := Link(t.store, d, t.desc);
            && Turned(st, cap, d, p, t.desc, st3) && Takeable(st3, t.desc)
            && GoodPool(st3, t.pool) && Known(st3, st3.free)
            && [t.desc] + Supply(st3, t.pool) == Supply(st, pool)
            && d !in Supply(st, pool)
  {
    assert st.free != [] ==> t.desc == st.free[0];
  }

  lemma ChainFilledCons(descs: map<nat, Desc>, d: nat, ids: seq<nat>, first: Piece, ps: seq<Piece>)
    requires ChainFilled(descs, ids, ps) && ids != []
    requires d in descs && PieceOf(descs[d]) == first && descs[d].next == ids[0]
    ensures ChainFilled(descs, [d] + ids, [first] + ps)
  {
    var all := [d] + ids;
    forall i | 0 <= i < |all| ensures all[i] in descs && LinkedAt(descs, all, i) {
      if i > 0 { assert all[i] == ids[i - 1] && LinkedAt(descs, ids, i - 1); }
    }
  }

  lemma TouchedCons(st: Store, cap: nat, d: nat, p: Piece, st3: Store, ids: seq<nat>, b: map<nat, Desc>)
    requires ids != [] && d !in ids && Turned(st, cap, d, p, ids[0], st3) && st.descs[d].cookie == 0
    requires OnlyTouched(st3.descs, b, ids)
    ensures OnlyTouched(st.descs, b, [d] + ids) && d in b && b[d] == st3.descs[d]
  {}

  lemma SplitStep(p: Piece, cap: nat)
    requires 0 < cap < p.len
    ensures Split(p, cap) == [Piece(p.src, p.dst, cap)] + Split(Rest(p, cap), cap)
  {}

  lemma PrepLastTurn(st: Store, cap: nat, chain: seq<nat>, d: nat, p: Piece, pool: seq<nat>)
    requires cap > 0 && Known(st, st.free) && Takeable(st, d) && p.len <= cap
    ensures PrepDone(st, cap, chain, [d], p, PrepFrom(st, cap, chain, d, p, pool))
  {}

  lemma JoinDone(st: Store, cap: nat, chain: seq<nat>, d: nat, p: Piece, st3: Store, rest: seq<nat>,
                 r: Prepared)
    requires 0 < cap < p.len && rest != [] && d !in rest
    requires Turned(st, cap, d, p, rest[0], st3) && st.descs[d].cookie == 0
    requires PrepDone(st3, cap, chain + [d], rest, Rest(p, cap), r)
    ensures PrepDone(st, cap, chain, [d] + rest, p, r)
  {
    hide OnlyTouched, ChainFilled;
    TouchedCons(st, cap, d, p, st3, rest, r.store.descs);
    ChainFilledCons(r.store.descs, d, rest, Piece(p.src, p.dst, cap), Split(Rest(p, cap), cap));
    SplitStep(p, cap);
    assert (chain + [d]) + rest == chain + ([d] + rest);
  }

  /** Enough descriptors: the chain is the next |Split| of them, in order. */
  lemma {:induction false} PrepFromDone(st: Store, cap: nat, chain: seq<nat>, d: nat, p: Piece,
                                        pool: seq<nat>, ids: seq<nat>)
    requires cap > 0 && Known(st, st.free) && GoodPool(st, pool) && Takeable(st, d)
    requires |ids| == |Split(p, cap)| && ids <= [d] + Supply(st, pool)
    ensures PrepDone(st, cap, chain, ids, p, PrepFrom(st, cap, chain, d, p, pool))
    decreases p.len
  {
    hide PrepDone, NoDup, NoCookies, Turned;
    if p.len <= cap {
      assert ids == [d];
      PrepLastTurn(st, cap, chain, d, p, pool);
    } else {
      var t := TakeNext(Filled(st, d, p, cap), pool);
      SplitStep(p, cap);
      TakeTurns(st, cap, d, p, pool, t);
      var rest := ids[1..];
      assert ids == [d] + rest && rest <= Supply(st, pool);
      PrepFromDone(Link(t.store, d, t.desc), cap, chain + [d], t.desc, Rest(p, cap), t.pool, rest);
      JoinDone(st, cap, chain, d, p, Link(t.store, d, t.desc), rest,
               PrepFrom(st, cap, chain, d, p, pool));
    }
  }

  /** The free list loses what was taken from it. */
  lemma {:induction false} PrepFromFree(st: Store, cap: nat, chain: seq<nat>, d: nat, p: Piece,
                                        pool: seq<nat>)
    requires cap > 0 && Known(st, st.free) && GoodPool(st, pool) && Takeable(st, d)
    requires |Split(p, cap)| <= 1 + |Supply(st, pool)|
    ensures PrepFrom(st, cap, chain, d, p, pool).store.free == Drop(st.free, |Split(p, cap)| - 1)
    decreases p.len
  {
    hide NoDup, NoCookies;
    if p.len > cap {
      var t := TakeNext(Filled(st, d, p, cap), pool);
      SplitStep(p, cap);
      TakeTurns(st, cap, d, p, pool, t);
      PrepFromFree(Link(t.store, d, t.desc), cap, chain + [d], t.desc, Rest(p, cap), t.pool);
    }
  }

  lemma JoinGaveUp(st: Store, cap: nat, chain: seq<nat>, d: nat, p: Piece, st3: Store, rest: seq<nat>,
                   r: Prepared)
    requires rest != [] && d !in rest
    requires Turned(st, cap, d, p, rest[0], st3) && st.descs[d].cookie == 0
    requires PrepGaveUp(st3, chain + [d], rest, r)
    ensures PrepGaveUp(st, chain, [d] + rest, r)
  {
    TouchedCons(st, cap, d, p, st3, rest, r.store.descs);
    assert (chain + [d]) + rest == chain + ([d] + rest);
  }

  /** Not enough: every descriptor taken goes to the free list. */
  lemma {:induction false} PrepFromGivesUp(st: Store, cap: nat, chain: seq<nat>, d: nat, p: Piece,
                                           pool: seq<nat>)
    requires cap > 0 && Known(st, st.free) && GoodPool(st, pool) && Takeable(st, d)
    requires |Split(p, cap)| > 1 + |Supply(st, pool)|
    ensures PrepGaveUp(st, chain, [d] + Supply(st, pool), PrepFrom(st, cap, chain, d, p, pool))
    decreases p.len
  {
    hide NoDup, Turned;
    var t := TakeNext(Filled(st, d, p, cap), pool);
    SplitStep(p, cap);
    if t.NoDesc? {
      assert [d] + Supply(st, pool) == [d];
      assert (chain + [d]) + st.free == chain + [d];
    } else {
      hide PrepGaveUp, NoCookies;
      TakeTurns(st, cap, d, p, pool, t);
      var st3 := Link(t.store, d, t.desc);
      PrepFromGivesUp(st3, cap, chain + [d], t.desc, Rest(p, cap), t.pool);
      JoinGaveUp(st, cap, chain, d, p, st3, Supply(st, pool), PrepFrom(st, cap, chain, d, p, pool));
    }
  }
}
