/**
 The I/OAT version 1 channel as an object: the driver routines, each proved to do to the channel
 what its function in IoatCore says.  Module IoatTheorems proves what those functions keep.
 */
module IoatChannel {
  import opened DmaCookies
  import opened Memcpy
  import opened IoatCore

  // ----- what every routine keeps, whatever it is called with

  /** Lists hold descriptors that exist, and 0 is none; the state invariant proper is IoatRun.Inv. */
  predicate Sound(c: Core) {
    && c.xfercap > 0 && 1 <= c.cookie <= INT_MAX && 0 !in c.store.descs
    && Known(c.store, c.store.free) && Known(c.store, c.used)
    && forall t :: t in c.prepared ==> t in c.store.descs && c.prepared[t] != [] && Known(c.store, c.prepared[t])
  }

  /** More descriptors, the same lists. */
  lemma KnownInMore(a: Store, b: Store, s: seq<nat>)
    requires Known(a, s) && a.descs.Keys <= b.descs.Keys
    ensures Known(b, s)
  {
    forall i | 0 <= i < |s| ensures s[i] in b.descs { assert s[i] in a.descs.Keys; }
  }

  lemma TakeSound(st: Store, pool: seq<nat>)
    requires Known(st, st.free) && 0 !in st.descs && 0 !in pool
    ensures match TakeNext(st, pool)
            case NoDesc => true
            case Taken(d, st', rest) =>
              && d in st'.descs && st.descs.Keys <= st'.descs.Keys && 0 !in st'.descs
              && Known(st', st'.free) && 0 !in rest
  {}

  ghost predicate PrepSound(st: Store, r: Prepared) {
    && st.descs.Keys <= r.store.descs.Keys && 0 !in r.store.descs && Known(r.store, r.store.free)
    && (r.Ready? ==> r.chain != [] && Known(r.store, r.chain))
  }

  lemma {:induction false} PrepFromSound(st: Store, cap: nat, chain: seq<nat>, d: nat, p: Piece, pool: seq<nat>)
    requires cap > 0 && d in st.descs && Known(st, st.free) && Known(st, chain)
    requires 0 !in st.descs && 0 !in pool
    ensures PrepSound(st, PrepFrom(st, cap, chain, d, p, pool))
    decreases p.len
  {
    if p.len > cap {
      TakeSound(Filled(st, d, p, cap), pool);
      match TakeNext(Filled(st, d, p, cap), pool)
      case NoDesc =>
      case Taken(n, st1, rest) =>
        KnownInMore(st, st1, chain);
        PrepFromSound(Link(st1, d, n), cap, chain + [d], n, Rest(p, cap), rest);
    }
  }

  lemma PrepChainSound(st: Store, cap: nat, p: Piece, pool: seq<nat>)
    requires cap > 0 && Known(st, st.free) && 0 !in st.descs && 0 !in pool
    ensures PrepSound(st, PrepChain(st, cap, p, pool))
  {
    hide PrepFrom;
    TakeSound(st, pool);
    match TakeNext(st, pool)
    case NoDesc =>
    case Taken(d, st1, rest) => PrepFromSound(st1, cap, [], d, p, rest);
  }

  /** A store with more descriptors and a good free list of its own. */
  lemma SoundInMore(c: Core, st: Store)
    requires Sound(c) && c.store.descs.Keys <= st.descs.Keys && 0 !in st.descs && Known(st, st.free)
    ensures Sound(c.(store := st))
  {
    KnownInMore(c.store, st, c.used);
    forall t | t in c.prepared ensures t in st.descs && Known(st, c.prepared[t]) {
      assert t in c.store.descs.Keys;
      KnownInMore(c.store, st, c.prepared[t]);
    }
  }

  lemma PrepKeepsSound(c: Core, p: Piece, ack: bool, pool: seq<nat>)
    requires Sound(c) && 0 !in pool
    ensures Sound(Prep(c, p, ack, pool))
  {
    PrepChainSound(c.store, c.xfercap, p, pool);
    hide PrepChain;
    match PrepChain(c.store, c.xfercap, p, pool)
    case Failed(st) => SoundInMore(c, st);
    case Ready(st, chain) =>
      var t := Last(chain);
      var st1 := Put(st, t, st.descs[t].(acked := ack, len := p.len, txCnt := |chain|));
      assert st1.descs.Keys == st.descs.Keys;
      KnownInMore(st, st1, st1.free);
      KnownInMore(st, st1, chain);
      SoundInMore(c, st1);
  }

  lemma StartNullKeepsSound(c: Core, pool: seq<nat>)
    requires Sound(c) && 0 !in pool
    ensures Sound(StartNull(c, pool))
  {
    TakeSound(c.store, pool);
    if TakeNext(c.store, pool).Taken? { SoundInMore(c, StartNull(c, pool).store); }
  }

  // ----- a submit in steps

  function Numbered(c: Core): Core
    requires 1 <= c.cookie <= INT_MAX
  {
    c.(cookie := NextCookie(c.cookie))
  }

  function Hooked(c: Core, tail: nat, cookie: nat): Core
    requires CanSubmit(c, tail)
  {
    c.(store := Link(Put(c.store, tail, c.store.descs[tail].(cookie := cookie)), Last(c.used), c.prepared[tail][0]))
  }

  function Spliced(c: Core, tail: nat): Core
    requires tail in c.prepared
  {
    c.(used := c.used + c.prepared[tail], prepared := c.prepared - {tail})
  }

  function Accounted(c: Core, txCnt: int): Core {
    c.(completionPending := true, timerArmed := c.timerArmed || !c.completionPending, active := c.active + txCnt,
       pending := if c.pending + txCnt >= c.pendingLevel then 0 else c.pending + txCnt)
  }

  /** The steps of ioat1_tx_submit, one after the other, are a submit. */
  lemma SubmitInSteps(c: Core, tail: nat)
    requires CanSubmit(c, tail)
    ensures var c1 := Numbered(c);
            && tail in c.store.descs && CanSubmit(c1, tail)
            && var c2 := Hooked(c1, tail, c1.cookie);
               && tail in c2.prepared
               && Submit(c, tail) == Accounted(Spliced(c2, tail), c.store.descs[tail].txCnt)
               && Submit(c, tail).cookie == c1.cookie
  {}

  lemma SubmitKeepsSound(c: Core, tail: nat)
    requires Sound(c) && tail in c.prepared && c.used != []
    ensures CanSubmit(c, tail) && Sound(Submit(c, tail))
  {
    var st := Submit(c, tail).store;
    KnownInMore(c.store, st, c.used);
    KnownInMore(c.store, st, c.prepared[tail]);
  }

  /** The part of a sweep that the lists depend on. */
  lemma {:induction false} SweepKeepsKnown(s: Sweep, rest: seq<nat>, phys: nat)
    requires Known(s.store, rest) && Known(s.store, s.kept) && Known(s.store, s.store.free)
    ensures var r := SweepFrom(s, rest, phys);
            && r.store.descs.Keys == s.store.descs.Keys
            && Known(r.store, r.kept) && Known(r.store, r.store.free)
    decreases |rest|
  {
    if rest != [] {
      var s1 := Retire(s, rest[0]);
      KnownInMore(s.store, s1.store, rest);
      KnownInMore(s.store, s1.store, s.kept);
      KnownInMore(s.store, s1.store, s.store.free);
      hide Retire;
      if rest[0] != phys {
        if s1.store.descs[rest[0]].acked {
          SweepKeepsKnown(s1.(store := s1.store.(free := s1.store.free + [rest[0]])), rest[1..], phys);
        } else {
          SweepKeepsKnown(s1.(kept := s1.kept + [rest[0]]), rest[1..], phys);
        }
      }
    }
  }

  lemma CleanupKeepsSound(c: Core, phys: nat)
    requires Sound(c)
    ensures Sound(Cleanup(c, phys))
  {
    var s := Sweep(c.store, [], c.completedCookie, c.active, c.completionPending);
    SweepKeepsKnown(s, c.used, phys);
    hide SweepFrom;
    SoundInMore(c, Cleanup(c, phys).store);
  }

  class Channel {
    const xfercap: nat
    const pendingLevel: int
    var descs: map<nat, Desc>
    var freeDesc: seq<nat>
    var usedDesc: seq<nat>
    var txLists: map<nat, seq<nat>>
    var cookie: nat
    var completedCookie: nat
    var active: int
    var pending: int
    var completionPending: bool
    var completionAck: bool
    var resetPending: bool
    var timerArmed: bool
    var completion: nat
    var lastCompletion: nat

    function Descriptors(): Store
      reads this
    {
      Store(descs, freeDesc)
    }

    function View(): Core
      reads this
    {
      Core(xfercap, pendingLevel, Descriptors(), usedDesc, txLists, cookie, completedCookie, active,
           pending, completionPending, completionAck, resetPending, timerArmed, completion,
           lastCompletion)
    }

    predicate Valid()
      reads this
    {
      Sound(View())
    }

    constructor (cap: nat, level: int, ids: seq<nat>)
      requires cap > 0 && 0 !in ids
      ensures Valid()
      ensures View() == Core(cap, level, Store(map d | d in ids :: Zeroed, ids), [], map[],
                             CookieOf(0), CookieOf(0), 0, 0, false, false, false, false, 0, 0)
    {
      xfercap, pendingLevel := cap, level;
      descs, freeDesc, usedDesc, txLists := map d | d in ids :: Zeroed, ids, [], map[];
      cookie, completedCookie, active, pending := CookieOf(0), CookieOf(0), 0, 0;
      completionPending, completionAck, resetPending, timerArmed := false, false, false, false;
      completion, lastCompletion := 0, 0;
    }

    /** ioat1_dma_get_next_descriptor; `pool` is what allocation still has to give. */
    method GetNextDescriptor(pool: seq<nat>) returns (d: nat, pool': seq<nat>)
      modifies this`freeDesc, this`descs
      ensures match TakeNext(old(Descriptors()), pool)
              case NoDesc => d == 0 && pool' == pool && Descriptors() == old(Descriptors())
              case Taken(n, st, rest) => d == n && pool' == rest && Descriptors() == st
    {
      pool' := pool;
      if freeDesc != [] {
        d := freeDesc[0];
        freeDesc := freeDesc[1..];
      } else if pool != [] {
        d, pool' := pool[0], pool[1..];
        descs := descs[d := Zeroed];
      } else {
        d := 0;
      }
    }

    /** ioat1_dma_start_null_desc */
    method StartNullDesc(pool: seq<nat>)
      requires Valid() && 0 !in pool
      modifies this`freeDesc, this`descs, this`usedDesc
      ensures Valid() && View() == StartNull(old(View()), pool)
    {
      StartNullKeepsSound(View(), pool);
      ghost var st := Descriptors();
      var d, _ := GetNextDescriptor(pool);
      assert TakeNext(st, pool).Taken? ==> d in st.free + pool;
      if d != 0 {
        descs := descs[d := descs[d].(isNull := true, next := 0, src := 0, dst := 0, size := 1, acked := true)];
        usedDesc := usedDesc + [d];
      }
    }

    /** The loop of ioat1_dma_prep_memcpy: fills a chain, or fails and gives everything back. */
    method BuildChain(dest: nat, src: nat, len: nat, pool: seq<nat>) returns (chain: seq<nat>, ok: bool)
      requires Valid() && 0 !in pool
      modifies this`freeDesc, this`descs
      ensures PrepChain(old(Descriptors()), xfercap, Piece(src, dest, len), pool)
              == if ok then Ready(Descriptors(), chain) else Failed(Descriptors())
      ensures ok ==> chain != [] && Last(chain) in descs && Last(chain) != 0
    {
      ghost var goal := PrepChain(Descriptors(), xfercap, Piece(src, dest, len), pool);
      var p := Piece(src, dest, len);
      var d, rest := GetNextDescriptor(pool);
      chain, ok := [], d != 0;
      while ok && p.len > xfercap
        invariant 0 !in freeDesc && 0 !in rest && Known(Descriptors(), freeDesc)
        invariant ok ==> d != 0 && d in descs && goal == PrepFrom(Descriptors(), xfercap, chain, d, p, rest)
        invariant !ok ==> goal == Failed(Store(descs, chain + freeDesc))
        decreases ok, p.len
      {
        descs := descs[d := Fill(descs[d], Piece(p.src, p.dst, xfercap)).(acked := true)];
        chain := chain + [d];
        p := Rest(p, xfercap);
        var n, rest' := GetNextDescriptor(rest);
        descs := descs[d := descs[d].(next := n)];
        d, rest, ok := n, rest', n != 0;
      }
      if !ok {
        freeDesc := chain + freeDesc;
      } else {
        chain := chain + [d];
        descs := descs[d := Fill(descs[d], p)];
        descs := descs[d := descs[d].(next := 0)];
      }
    }

    /** ioat1_dma_prep_memcpy: returns the last descriptor of the chain, or 0. */
    method PrepMemcpy(dest: nat, src: nat, len: nat, ack: bool, pool: seq<nat>) returns (tail: nat)
      requires Valid() && 0 !in pool
      modifies this`freeDesc, this`descs, this`txLists
      ensures Valid() && View() == Prep(old(View()), Piece(src, dest, len), ack, pool)
      ensures tail == 0 <==> PrepChain(old(Descriptors()), xfercap, Piece(src, dest, len), pool).Failed?
      ensures tail != 0 ==> tail in txLists && tail in descs
    {
      PrepKeepsSound(View(), Piece(src, dest, len), ack, pool);
      var chain, ok := BuildChain(dest, src, len, pool);
      tail := 0;
      if ok {
        tail := Last(chain);
        descs := descs[tail := descs[tail].(acked := ack, len := len, txCnt := |chain|)];
        txLists := txLists[tail := chain];
      }
    }

    /** ioat1_tx_submit */
    method TxSubmit(tail: nat) returns (c: nat)
      requires Valid() && tail in txLists && usedDesc != []
      modifies this
      ensures CanSubmit(old(View()), tail)
      ensures Valid() && View() == Submit(old(View()), tail) && c == cookie
    {
      ghost var was := View();
      SubmitKeepsSound(was, tail);
      SubmitInSteps(was, tail);
      hide *;
      var txCnt := descs[tail].txCnt;
      c := Number();
      Hook(tail, c);
      Splice(tail);
      Account(txCnt);
    }

    /** dma_cookie_assign */
    method Number() returns (c: nat)
      requires 1 <= cookie <= INT_MAX
      modifies this`cookie
      ensures View() == Numbered(old(View())) && c == cookie
    {
      cookie := NextCookie(cookie);
      c := cookie;
    }

    /** The two descriptor stores of a submit: the cookie, then the link that makes the chain
        reachable for the device. */
    method Hook(tail: nat, c: nat)
      requires CanSubmit(View(), tail)
      modifies this`descs
      ensures View() == Hooked(old(View()), tail, c)
    {
      var chainTail, first := Last(usedDesc), txLists[tail][0];
      descs := descs[tail := descs[tail].(cookie := c)];
      descs := descs[chainTail := descs[chainTail].(next := first)];
    }

    /** list_splice_tail_init of the chain. */
    method Splice(tail: nat)
      requires tail in txLists
      modifies this`usedDesc, this`txLists
      ensures View() == Spliced(old(View()), tail)
    {
      usedDesc, txLists := usedDesc + txLists[tail], txLists - {tail};
    }

    /** The completion bit, the timer and the two counts. */
    method Account(txCnt: int)
      modifies this`completionPending, this`timerArmed, this`active, this`pending
      ensures View() == Accounted(old(View()), txCnt)
    {
      if !completionPending {
        completionPending, timerArmed := true, true;
      }
      active := active + txCnt;
      pending := if pending + txCnt >= pendingLevel then 0 else pending + txCnt;
    }

    /** ioat_cleanup_preamble */
    method CleanupPreamble() returns (progress: bool, phys: nat)
      modifies this`completionAck, this`timerArmed
      ensures View() == Preamble(old(View())) && phys == completion
      ensures old(Valid()) ==> Valid()
      ensures progress == Progress(View())
    {
      phys := completion;
      progress := phys != lastCompletion;
      if progress {
        completionAck, timerArmed := false, true;
      }
    }

    ghost function Sweeping(kept: seq<nat>): Sweep
      reads this
    {
      Sweep(Descriptors(), kept, completedCookie, active, completionPending)
    }

    /** __cleanup: walk the used list up to `phys`. */
    method CleanupUpTo(phys: nat)
      requires Valid()
      modifies this`descs, this`freeDesc, this`usedDesc, this`completedCookie, this`active,
               this`completionPending, this`lastCompletion
      ensures Valid() && View() == Cleanup(old(View()), phys)
    {
      CleanupKeepsSound(View(), phys);
      var kept := SweepUsed(phys);
      usedDesc := kept;
      lastCompletion := phys;
    }

    /** The loop of __cleanup; returns the entries that stay on the used list. */
    method SweepUsed(phys: nat) returns (kept: seq<nat>)
      requires Known(Descriptors(), usedDesc)
      modifies this`descs, this`freeDesc, this`completedCookie, this`active, this`completionPending
      ensures Sweeping(kept) == SweepFrom(old(Sweeping([])), usedDesc, phys)
    {
      ghost var goal := SweepFrom(Sweeping([]), usedDesc, phys);
      kept := [];
      var rest := usedDesc;
      while rest != [] && rest[0] != phys
        invariant Known(Descriptors(), rest)
        invariant goal == SweepFrom(Sweeping(kept), rest, phys)
        decreases |rest|
      {
        var d := rest[0];
        RetireDesc(d, kept);
        if descs[d].acked {
          freeDesc := freeDesc + [d];
        } else {
          kept := kept + [d];
        }
        rest := rest[1..];
      }
      if rest != [] {
        RetireDesc(phys, kept);
        if |rest| == 1 {
          completionPending := false;
        }
        kept := kept + rest;
      }
    }

    /** The part of the loop body that completes a cookie. */
    method RetireDesc(d: nat, ghost kept: seq<nat>)
      requires d in descs
      modifies this`descs, this`completedCookie, this`active
      ensures Sweeping(kept) == Retire(old(Sweeping(kept)), d)
    {
      if descs[d].cookie != 0 {
        completedCookie := descs[d].cookie;
        active := active - descs[d].txCnt;
        descs := descs[d := descs[d].(cookie := 0)];
      }
    }

    /** ioat1_timer_event, with both locks; `status` is the channel status address. */
    method TimerEvent(status: nat)
      requires Valid()
      modifies this
      ensures Valid()
      ensures View() == match TimerTest(old(View()))
                        case Restart => TimerRestart(old(View()).(resetPending := false))
                        case Check => TimerCheck(old(View()), status)
                        case Nothing => old(View())
    {
      if resetPending {
        resetPending, pending, completionPending, timerArmed := false, 0, true, true;
      } else if completionPending {
        var progress, phys := CleanupPreamble();
        if progress {
          CleanupUpTo(phys);
        } else if completionAck {
          pending, resetPending, timerArmed := INT_MIN, true, true;
        } else {
          if status != 0 {
            completion := status;
          }
          completionAck, timerArmed := true, true;
        }
      }
    }

    /** ioat_dma_tx_status: ask, clean up if the answer is not yet success, ask again. */
    method TxStatus(c: int) returns (status: Status)
      requires Valid()
      modifies this
      ensures Valid()
      ensures var now := IsComplete(c, old(completedCookie), old(cookie));
              if now == Success then status == Success && View() == old(View())
              else if Progress(old(View()))
              then View() == Cleanup(Preamble(old(View())), old(completion))
                   && status == IsComplete(c, completedCookie, cookie)
              else status == now && View() == old(View())
    {
      status := IsComplete(c, completedCookie, cookie);
      if status != Success {
        var progress, phys := CleanupPreamble();
        if progress {
          CleanupUpTo(phys);
        }
        status := IsComplete(c, completedCookie, cookie);
      }
    }
  }
}
