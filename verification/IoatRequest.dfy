/**
 A request of the page-splitting copy on an I/OAT channel that others use as well: success of its
 last cookie means that all its bytes were copied.
 */
module IoatRequest {
  import opened DmaCookies
  import opened Memcpy
  import opened IoatRun
  import opened IoatTheorems
  import PS = PageSplit

  /** The copy asked of the channel for a chunk, given the addresses of the pinned pages. */
  function OrderOf(c: PS.Chunk, frames: seq<nat>, kernel: nat, toUser: bool): Piece
    requires c.page < |frames|
  {
    if toUser then Piece(kernel + c.at, frames[c.page] + c.off, c.len)
    else Piece(frames[c.page] + c.off, kernel + c.at, c.len)
  }

  /** The address of byte `x` of the user buffer, in the frame that backs it. */
  function UserByte(user: nat, frames: seq<nat>, x: nat): nat
    requires user % PS.PAGE_SIZE + x < |frames| * PS.PAGE_SIZE
  {
    var y := user % PS.PAGE_SIZE + x;
    frames[y / PS.PAGE_SIZE] + y % PS.PAGE_SIZE
  }

  /** The transactions `ns`, in the order of their submission, are the chunks of the request. */
  ghost predicate Submitted(w: World, ns: seq<nat>, cs: seq<PS.Chunk>, frames: seq<nat>, kernel: nat, toUser: bool) {
    && |ns| == |cs| == |frames|
    && (forall k :: 0 <= k < |cs| ==> cs[k].page == k)
    && (forall k :: 0 <= k < |ns| ==> 1 <= ns[k] <= |w.h.ch.txs|)
    && (forall k :: 0 <= k < |ns| ==> w.h.ch.txs[ns[k] - 1].order == OrderOf(cs[k], frames, kernel, toUser))
    && (forall j, k :: 0 <= j < k < |ns| ==> ns[j] < ns[k])
  }

  /** The copies of the request may be executed in memory `mem`, among the other entries of the log. */
  ghost predicate Undisturbed<T>(mem: seq<T>, log: seq<Piece>, cs: seq<PS.Chunk>, frames: seq<nat>, kernel: nat, toUser: bool)
    requires |cs| == |frames| && forall k :: 0 <= k < |cs| ==> cs[k].page == k
  {
    && AllFit(mem, log)
    && forall k :: 0 <= k < |cs| ==>
         var p := OrderOf(cs[k], frames, kernel, toUser);
         Fits(mem, p) && Disjoint(p) && Harmless(log, p)
  }

  /** Transactions come one behind the other in the log. */
  lemma {:induction false} LaterFirst(run: seq<World>, acts: seq<Action>, i: nat, m: nat, n: nat)
    requires IsRun(run, acts) && i < |run| && 1 <= m <= n <= |run[i].h.ch.txs|
    ensures run[i].h.ch.txs[m - 1].first <= run[i].h.ch.txs[n - 1].first
  {
    RunInv(run, acts, i);
    var w := run[i];
    assert w.core.xfercap > 0 && TxsOk(w.h.ch.txs, w.h.ch.pieces, w.core.xfercap);
    hide *;
    FirstsRise(w.h.ch.txs, w.h.ch.pieces, w.core.xfercap, m, n);
  }

  lemma {:induction false} FirstsRise(txs: seq<Tx>, pieces: seq<Piece>, cap: nat, m: nat, n: nat)
    requires cap > 0 && TxsOk(txs, pieces, cap) && 1 <= m <= n <= |txs|
    ensures txs[m - 1].first <= txs[n - 1].first
    decreases n
  {
    hide Split;
    if m < n {
      FirstsRise(txs, pieces, cap, m, n - 1);
      assert TxAt(txs, pieces, cap, n - 1) && TxAt(txs, pieces, cap, n - 2);
    }
  }

  /** One chunk of the request, seen from the log entry `start` on. */
  lemma ChunkCopied<T>(w: World, m: nat, start: nat, mem: seq<T>)
    requires Executed(w, m) && start <= w.h.ch.txs[m - 1].first
    requires var p := w.h.ch.txs[m - 1].order;
             AllFit(mem, w.h.dv.log[start..]) && Fits(mem, p) && Disjoint(p) && Harmless(w.h.dv.log[start..], p)
    ensures var p := w.h.ch.txs[m - 1].order;
            Exec(mem, w.h.dv.log[start..])[p.dst..p.dst + p.len] == mem[p.src..p.src + p.len]
  {
    var t, cap := w.h.ch.txs[m - 1], w.core.xfercap;
    var log := w.h.dv.log[start..];
    assert log[t.first - start..t.last + 1 - start] == w.h.dv.log[t.first..t.last + 1];
    hide Exec, Split, Harmless, AllFit, CoveredBy;
    forall x: nat | x < t.order.len ensures CoveredBy(log, t.order, x) {
      SplitCovers(t.order, cap, x);
      SliceCovered(log, t.first - start, t.last + 1 - start, t.order, x);
    }
    CopiedByParts(mem, log, t.order);
  }

  /** The chunk's copy moves byte `x` between the kernel buffer and the frame of the user address. */
  predicate PlacedIn(user: nat, frames: seq<nat>, kernel: nat, toUser: bool, x: nat, c: PS.Chunk)
    requires c.page < |frames| && PS.Holds(c, x)
  {
    && user % PS.PAGE_SIZE + x < |frames| * PS.PAGE_SIZE
    && var p := OrderOf(c, frames, kernel, toUser);
       var user' := UserByte(user, frames, x);
       if toUser then p.src + (x - c.at) == kernel + x && p.dst + (x - c.at) == user'
       else p.dst + (x - c.at) == kernel + x && p.src + (x - c.at) == user'
  }

  /** A byte of the request lies in a chunk, at its user address. */
  lemma ByteOfChunk(user: nat, len: nat, frames: seq<nat>, kernel: nat, toUser: bool, x: nat) returns (k: nat)
    requires x < len && |frames| == PS.NrPages(user, len)
    ensures var cs := PS.Chunks(user, len);
            && k < |cs| && cs[k].page == k < |frames| && PS.Holds(cs[k], x)
            && PlacedIn(user, frames, kernel, toUser, x, cs[k])
  {
    var cs := PS.Chunks(user, len);
    PS.SplitTheorem(user, len);
    k := PS.FindChunk(0, user % PS.PAGE_SIZE, 0, len, x);
    assert PS.ChunkOk(cs[k], k, user, len);
    hide PS.ChunksFrom;
    PlaceOfByte(user, x, k, cs[k].off + (x - cs[k].at));
  }

  lemma PlaceOfByte(user: nat, x: nat, k: nat, o: nat)
    requires o < PS.PAGE_SIZE && (user / PS.PAGE_SIZE + k) * PS.PAGE_SIZE + o == user + x
    ensures (user % PS.PAGE_SIZE + x) / PS.PAGE_SIZE == k && (user % PS.PAGE_SIZE + x) % PS.PAGE_SIZE == o
  {}

  /** The log from the first chunk of the request on. */
  function LogFrom(w: World, ns: seq<nat>): seq<Piece> {
    if ns != [] && 1 <= ns[0] <= |w.h.ch.txs| && w.h.ch.txs[ns[0] - 1].first <= |w.h.dv.log|
    then w.h.dv.log[w.h.ch.txs[ns[0] - 1].first..]
    else []
  }

  /** The wait for the request's last cookie found success, without a restart of the channel, with
      fewer than INT_MAX transactions outstanding. */
  ghost predicate Finished(w: World, ns: seq<nat>, cs: seq<PS.Chunk>, frames: seq<nat>, kernel: nat, toUser: bool) {
    && cs != [] && Submitted(w, ns, cs, frames, kernel, toUser) && !w.h.dv.restarted
    && |w.h.ch.txs| - w.h.ch.completed < INT_MAX
    && IsComplete(CookieOf(ns[|ns| - 1]), w.core.completedCookie, w.core.cookie) == Success
  }

  /**
   Waiting for the last cookie suffices for the whole request: once the status of its last
   transaction is success, every byte of the target holds what the source held when the device came
   to the first chunk, whatever other transactions lie before, between and behind the chunks.
   */
  lemma RequestCopied<T>(run: seq<World>, acts: seq<Action>, i: nat, ns: seq<nat>, user: nat, len: nat,
                         frames: seq<nat>, kernel: nat, toUser: bool, mem: seq<T>, x: nat)
    requires IsRun(run, acts) && i < |run| && x < len
    requires Finished(run[i], ns, PS.Chunks(user, len), frames, kernel, toUser)
    requires Undisturbed(mem, LogFrom(run[i], ns), PS.Chunks(user, len), frames, kernel, toUser)
    ensures Arrived(mem, Exec(mem, LogFrom(run[i], ns)), user, frames, kernel, toUser, x)
  {
    hide IsRun, Exec, Finished, Undisturbed, Arrived, OrderOf, PS.Chunks, PS.ChunksFrom, PS.NrPages, LogFrom;
    var cs := PS.Chunks(user, len);
    FramesCounted(run[i], ns, user, len, frames, kernel, toUser);
    var k := ByteOfChunk(user, len, frames, kernel, toUser, x);
    RequestChunk(run, acts, i, ns, cs, frames, kernel, toUser, mem, k);
    ArrivedByChunk(mem, Exec(mem, LogFrom(run[i], ns)), user, len, frames, kernel, toUser, x, k);
  }

  /** Byte `x` of the target holds what byte `x` of the source held. */
  predicate Arrived<T(==)>(mem: seq<T>, after: seq<T>, user: nat, frames: seq<nat>, kernel: nat, toUser: bool, x: nat) {
    && |after| == |mem| && user % PS.PAGE_SIZE + x < |frames| * PS.PAGE_SIZE
    && var user' := UserByte(user, frames, x);
       && kernel + x < |mem| && user' < |mem|
       && if toUser then after[user'] == mem[kernel + x] else after[kernel + x] == mem[user']
  }

  lemma FramesCounted(w: World, ns: seq<nat>, user: nat, len: nat, frames: seq<nat>, kernel: nat, toUser: bool)
    requires len > 0 && Finished(w, ns, PS.Chunks(user, len), frames, kernel, toUser)
    ensures |frames| == PS.NrPages(user, len)
  {
    hide OrderOf, PS.Chunks, PS.ChunksFrom, PS.NrPages, IsComplete, CookieOf;
    PS.SplitTheorem(user, len);
  }

  lemma ArrivedByChunk<T>(mem: seq<T>, after: seq<T>, user: nat, len: nat, frames: seq<nat>, kernel: nat,
                          toUser: bool, x: nat, k: nat)
    requires var cs := PS.Chunks(user, len);
             && k < |cs| && cs[k].page == k < |frames| && PS.Holds(cs[k], x)
             && PlacedIn(user, frames, kernel, toUser, x, cs[k])
             && var p := OrderOf(cs[k], frames, kernel, toUser);
                && |after| == |mem| && Fits(mem, p)
                && after[p.dst..p.dst + p.len] == mem[p.src..p.src + p.len]
    ensures Arrived(mem, after, user, frames, kernel, toUser, x)
  {
    hide PS.Chunks, PS.ChunksFrom, UserByte;
    var c := PS.Chunks(user, len)[k];
    ByteOfSlice(after, mem, OrderOf(c, frames, kernel, toUser), x - c.at);
  }

  lemma ByteOfSlice<T>(after: seq<T>, mem: seq<T>, p: Piece, y: nat)
    requires |after| == |mem| && Fits(mem, p) && y < p.len
    requires after[p.dst..p.dst + p.len] == mem[p.src..p.src + p.len]
    ensures p.dst + y < |mem| && p.src + y < |mem| && after[p.dst + y] == mem[p.src + y]
  {
    assert after[p.dst..p.dst + p.len][y] == mem[p.src..p.src + p.len][y];
  }

  lemma RequestChunk<T>(run: seq<World>, acts: seq<Action>, i: nat, ns: seq<nat>, cs: seq<PS.Chunk>,
                        frames: seq<nat>, kernel: nat, toUser: bool, mem: seq<T>, k: nat)
    requires IsRun(run, acts) && i < |run| && k < |cs|
    requires Finished(run[i], ns, cs, frames, kernel, toUser)
    requires Undisturbed(mem, LogFrom(run[i], ns), cs, frames, kernel, toUser)
    ensures AllFit(mem, LogFrom(run[i], ns))
    ensures var p := OrderOf(cs[k], frames, kernel, toUser);
            Fits(mem, p) && Exec(mem, LogFrom(run[i], ns))[p.dst..p.dst + p.len] == mem[p.src..p.src + p.len]
  {
    hide *;
    var w := run[i];
    ChunksExecuted(run, acts, i, ns, cs, frames, kernel, toUser, k);
    UndisturbedAt(w, ns, cs, frames, kernel, toUser, mem, k);
    ChunkCopied(w, ns[k], w.h.ch.txs[ns[0] - 1].first, mem);
  }

  /** Every chunk was executed, at or behind the first. */
  lemma ChunksExecuted(run: seq<World>, acts: seq<Action>, i: nat, ns: seq<nat>, cs: seq<PS.Chunk>,
                       frames: seq<nat>, kernel: nat, toUser: bool, k: nat)
    requires IsRun(run, acts) && i < |run| && k < |cs| && Finished(run[i], ns, cs, frames, kernel, toUser)
    ensures |ns| == |cs| && 1 <= ns[0] <= |run[i].h.ch.txs| && 1 <= ns[k] <= |run[i].h.ch.txs|
    ensures Executed(run[i], ns[0]) && Executed(run[i], ns[k])
    ensures run[i].h.ch.txs[ns[0] - 1].first <= run[i].h.ch.txs[ns[k] - 1].first
  {
    hide IsRun, IsComplete, CookieOf, OrderOf, Executed;
    assert ns[0] <= ns[k] <= ns[|ns| - 1];
    LastCookieSuffices(run, acts, i, ns[|ns| - 1], ns[0]);
    LastCookieSuffices(run, acts, i, ns[|ns| - 1], ns[k]);
    LaterFirst(run, acts, i, ns[0], ns[k]);
  }

  lemma UndisturbedAt<T>(w: World, ns: seq<nat>, cs: seq<PS.Chunk>, frames: seq<nat>, kernel: nat, toUser: bool,
                         mem: seq<T>, k: nat)
    requires k < |cs| && Finished(w, ns, cs, frames, kernel, toUser) && |ns| == |cs|
    requires Undisturbed(mem, LogFrom(w, ns), cs, frames, kernel, toUser)
    requires 1 <= ns[0] <= |w.h.ch.txs| && Executed(w, ns[0])
    ensures cs[k].page < |frames| && 1 <= ns[k] <= |w.h.ch.txs|
    ensures var start := w.h.ch.txs[ns[0] - 1].first;
            var p := OrderOf(cs[k], frames, kernel, toUser);
            && start <= |w.h.dv.log| && LogFrom(w, ns) == w.h.dv.log[start..]
            && w.h.ch.txs[ns[k] - 1].order == p
            && AllFit(mem, w.h.dv.log[start..]) && Fits(mem, p) && Disjoint(p) && Harmless(w.h.dv.log[start..], p)
  {
    hide IsComplete, CookieOf, OrderOf, Fits, Disjoint, Harmless, AllFit, Split;
  }
}
