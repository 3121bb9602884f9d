/**
 A copy request served by an I/OAT channel: the answers that the request sees are the cookies of
 submit steps in a run of the channel, its polls are cookie tests in states of that run.  Seen from
 the request, success then means that the bytes are where they belong.
 */
module DmaServed {
  import opened DmaCookies
  import opened Memcpy
  import opened IoatRun
  import opened IoatTheorems
  import opened DmaCopy
  import PS = PageSplit
  import IR = IoatRequest

  /** The buffers of a request; without pinned pages `user` is a kernel address as well. */
  datatype Transfer = Transfer(user: nat, kernel: nat, len: nat, toUser: bool, pin: Pin)

  /** A run of the channel, its steps that submitted the request, its states that were polled, and the
      addresses of the pinned pages. */
  datatype Service = Service(run: seq<World>, acts: seq<Action>, submits: seq<nat>, polls: seq<nat>, frames: seq<nat>)

  /** The copy that a submission asks for. */
  function OrderOf(sub: Submission, t: Transfer, frames: seq<nat>): Piece {
    match sub
    case Paged(c) => if c.page < |frames| then IR.OrderOf(c, frames, t.kernel, t.toUser) else Piece(0, 0, 0)
    case Whole(n) => if t.toUser then Piece(t.kernel, t.user, n) else Piece(t.user, t.kernel, n)
  }

  /** Step `n` submits a chain prepared for `order`, and the cookie it gives out is `cookie`. */
  ghost predicate Submits(sv: Service, n: nat, order: Piece, cookie: int) {
    && n < |sv.acts| && n + 1 < |sv.run| && sv.acts[n].DoSubmit?
    && sv.acts[n].tail in sv.run[n].h.orders && sv.run[n].h.orders[sv.acts[n].tail] == order
    && sv.run[n + 1].core.cookie == cookie
  }

  /** Every accepted submission was a submit step of the run, in this order. */
  ghost predicate AllSubmitted(sv: Service, t: Transfer, asked: seq<Submission>, cookies: seq<int>) {
    && |sv.submits| == |asked| <= |cookies| && asked != []
    && (forall k :: 0 <= k < |asked| ==> Submits(sv, sv.submits[k], OrderOf(asked[k], t, sv.frames), cookies[k]))
    && (forall j, k :: 0 <= j < k < |asked| ==> sv.submits[j] < sv.submits[k])
  }

  /** Every poll was the test of `cookie` in a state of the run after the last submission. */
  ghost predicate AllPolled(sv: Service, cookie: int, polls: seq<Poll>) {
    && |sv.polls| == |polls| && sv.submits != []
    && forall p :: 0 <= p < |polls| ==>
         && sv.submits[|sv.submits| - 1] < sv.polls[p] < |sv.run|
         && var c := sv.run[sv.polls[p]].core;
            polls[p].status == IsComplete(cookie, c.completedCookie, c.cookie)
  }

  ghost predicate Served(sv: Service, t: Transfer, answers: seq<int>, polls: seq<Poll>) {
    var asked := Asked(t.user, t.len, t.pin);
    && IsRun(sv.run, sv.acts)
    && (t.pin == Successful ==> |sv.frames| == PS.NrPages(t.user, t.len))
    && AllSubmitted(sv, t, asked, Accepted(answers))
    && AllPolled(sv, Accepted(answers)[|asked| - 1], polls)
  }

  // ----- the numbers of the request's transactions

  lemma TxsStep(w: World, a: Action)
    requires Enabled(w, a)
    ensures w.h.ch.txs <= Apply(w, a).h.ch.txs
    ensures a.DoSubmit? ==> |Apply(w, a).h.ch.txs| == |w.h.ch.txs| + 1
                            && Apply(w, a).h.ch.txs[|w.h.ch.txs|].order == w.h.orders[a.tail]
  {}

  lemma {:induction false} TxsGrow(run: seq<World>, acts: seq<Action>, i: nat, j: nat)
    requires IsRun(run, acts) && i <= j < |run|
    ensures run[i].h.ch.txs <= run[j].h.ch.txs
    decreases j
  {
    hide *;
    if i < j {
      TxsGrow(run, acts, i, j - 1);
      RunStep(run, acts, j - 1);
      TxsStep(run[j - 1], acts[j - 1]);
    }
  }

  lemma RunStep(run: seq<World>, acts: seq<Action>, n: nat)
    requires IsRun(run, acts) && n + 1 < |run|
    ensures n < |acts| && Enabled(run[n], acts[n]) && run[n + 1] == Apply(run[n], acts[n])
  {
    hide Enabled, Apply;
  }

  /** The number of the transaction that step `n` submits. */
  function NumberAt(run: seq<World>, n: nat): nat { if n + 1 < |run| then |run[n + 1].h.ch.txs| else 0 }

  function Numbers(sv: Service): (ns: seq<nat>)
    ensures |ns| == |sv.submits| && forall k :: 0 <= k < |ns| ==> ns[k] == NumberAt(sv.run, sv.submits[k])
  {
    seq(|sv.submits|, k requires 0 <= k < |sv.submits| => NumberAt(sv.run, sv.submits[k]))
  }

  /** Seen in any later state, the submit step made transaction `NumberAt`, for its order and with the
      cookie of that number. */
  lemma SubmittedTx(sv: Service, n: nat, order: Piece, cookie: int, i: nat)
    requires IsRun(sv.run, sv.acts) && Submits(sv, n, order, cookie) && n < i < |sv.run|
    ensures var m := NumberAt(sv.run, n);
            && 1 <= m <= |sv.run[i].h.ch.txs| && sv.run[i].h.ch.txs[m - 1].order == order
            && cookie == CookieOf(m)
  {
    hide IsRun, Enabled, Apply, Owned, CookieOf;
    var w := sv.run[n];
    RunStep(sv.run, sv.acts, n);
    RunInv(sv.run, sv.acts, n + 1);
    TxsStep(w, sv.acts[n]);
    TxsGrow(sv.run, sv.acts, n + 1, i);
    assert CookiesOk(sv.run[n + 1].core, sv.run[n + 1].h.ch);
    hide Inv;
  }

  lemma NumbersRise(sv: Service, n: nat, m: nat)
    requires IsRun(sv.run, sv.acts) && n < m && m + 1 < |sv.run| && m < |sv.acts| && sv.acts[m].DoSubmit?
    ensures NumberAt(sv.run, n) < NumberAt(sv.run, m)
  {
    hide IsRun, Enabled, Apply;
    TxsGrow(sv.run, sv.acts, n + 1, m);
    RunStep(sv.run, sv.acts, m);
    TxsStep(sv.run[m], sv.acts[m]);
  }

  /** All submissions, seen in state `i`. */
  lemma AllTxs(sv: Service, t: Transfer, asked: seq<Submission>, cookies: seq<int>, i: nat)
    requires IsRun(sv.run, sv.acts) && AllSubmitted(sv, t, asked, cookies)
    requires sv.submits[|sv.submits| - 1] < i < |sv.run|
    ensures var ns, txs := Numbers(sv), sv.run[i].h.ch.txs;
            && |ns| == |asked|
            && (forall k :: 0 <= k < |ns| ==> 1 <= ns[k] <= |txs|)
            && (forall k :: 0 <= k < |ns| ==> txs[ns[k] - 1].order == OrderOf(asked[k], t, sv.frames))
            && (forall k :: 0 <= k < |ns| ==> cookies[k] == CookieOf(ns[k]))
            && (forall j, k :: 0 <= j < k < |ns| ==> ns[j] < ns[k])
  {
    hide IsRun, CookieOf, OrderOf, NumberAt;
    var ns, txs := Numbers(sv), sv.run[i].h.ch.txs;
    forall k | 0 <= k < |ns|
      ensures 1 <= ns[k] <= |txs| && txs[ns[k] - 1].order == OrderOf(asked[k], t, sv.frames) && cookies[k] == CookieOf(ns[k])
    {
      assert Submits(sv, sv.submits[k], OrderOf(asked[k], t, sv.frames), cookies[k]);
      assert sv.submits[k] <= sv.submits[|sv.submits| - 1];
      hide Submits;
      SubmittedTx(sv, sv.submits[k], OrderOf(asked[k], t, sv.frames), cookies[k], i);
    }
    forall j, k | 0 <= j < k < |ns| ensures ns[j] < ns[k] {
      assert Submits(sv, sv.submits[k], OrderOf(asked[k], t, sv.frames), cookies[k]);
      NumbersRise(sv, sv.submits[j], sv.submits[k]);
    }
  }

  // ----- what has arrived

  /** The state in which poll `p` was made, and what the device copied from the request's first
      transaction on. */
  function PollLog(sv: Service, p: nat): seq<Piece> {
    if p < |sv.polls| && sv.polls[p] < |sv.run| then IR.LogFrom(sv.run[sv.polls[p]], Numbers(sv)) else []
  }

  /** In that state the channel was never restarted, and fewer than INT_MAX transactions are outstanding. */
  ghost predicate Settled(sv: Service, p: nat) {
    && p < |sv.polls| && sv.polls[p] < |sv.run|
    && var w := sv.run[sv.polls[p]];
       !w.h.dv.restarted && |w.h.ch.txs| - w.h.ch.completed < INT_MAX
  }

  /** Nothing else that the device copied meanwhile wrote to the request's buffers in memory `mem`. */
  ghost predicate Untouched(sv: Service, p: nat, t: Transfer, mem: seq<int>) {
    && AllFit(mem, PollLog(sv, p))
    && forall k :: 0 <= k < |Asked(t.user, t.len, t.pin)| ==>
         var o := OrderOf(Asked(t.user, t.len, t.pin)[k], t, sv.frames);
         Fits(mem, o) && Disjoint(o) && Harmless(PollLog(sv, p), o)
  }

  /** Every byte of the target holds what the source held when the device came to the request. */
  ghost predicate AllArrived(sv: Service, p: nat, t: Transfer, mem: seq<int>)
    requires AllFit(mem, PollLog(sv, p))
  {
    var after := Exec(mem, PollLog(sv, p));
    if t.pin == NoUser then
      var o := OrderOf(Whole(t.len), t, sv.frames);
      Fits(mem, o) && after[o.dst..o.dst + o.len] == mem[o.src..o.src + o.len]
    else
      forall x :: 0 <= x < t.len ==> IR.Arrived(mem, after, t.user, sv.frames, t.kernel, t.toUser, x)
  }

  lemma WholeArrived(sv: Service, p: nat, t: Transfer, answers: seq<int>, polls: seq<Poll>, mem: seq<int>)
    requires Served(sv, t, answers, polls) && t.pin == NoUser && p < |polls| && polls[p].status == Success
    requires Settled(sv, p) && Untouched(sv, p, t, mem)
    ensures AllArrived(sv, p, t, mem)
  {
    hide Served, Untouched, AllArrived, OrderOf, Exec, Harmless, AllFit, Fits, Disjoint, Executed, Asked, Numbers;
    WholeExecuted(sv, p, t, answers, polls);
    WholeUntouched(sv, p, t, mem);
    var n, w := Numbers(sv)[0], sv.run[sv.polls[p]];
    FirstInLog(w, n);
    assert PollLog(sv, p) == w.h.dv.log[w.h.ch.txs[n - 1].first..];
    IR.ChunkCopied(w, n, w.h.ch.txs[n - 1].first, mem);
    WholeIs(sv, p, t, mem);
  }

  lemma WholeUntouched(sv: Service, p: nat, t: Transfer, mem: seq<int>)
    requires t.pin == NoUser && Untouched(sv, p, t, mem)
    ensures var o := OrderOf(Whole(t.len), t, sv.frames);
            AllFit(mem, PollLog(sv, p)) && Fits(mem, o) && Disjoint(o) && Harmless(PollLog(sv, p), o)
  {
    hide PollLog, OrderOf, Harmless, AllFit, Fits, Disjoint;
    assert Asked(t.user, t.len, t.pin)[0] == Whole(t.len);
  }

  lemma WholeIs(sv: Service, p: nat, t: Transfer, mem: seq<int>)
    requires t.pin == NoUser && AllFit(mem, PollLog(sv, p)) && Fits(mem, OrderOf(Whole(t.len), t, sv.frames))
    requires var o := OrderOf(Whole(t.len), t, sv.frames);
             Exec(mem, PollLog(sv, p))[o.dst..o.dst + o.len] == mem[o.src..o.src + o.len]
    ensures AllArrived(sv, p, t, mem)
  {
    hide PollLog, OrderOf, Exec, AllFit;
  }

  /** What the service says about poll `p`. */
  lemma ServedParts(sv: Service, t: Transfer, answers: seq<int>, polls: seq<Poll>, p: nat)
    requires Served(sv, t, answers, polls) && p < |polls|
    ensures var asked, cookies := Asked(t.user, t.len, t.pin), Accepted(answers);
            && IsRun(sv.run, sv.acts) && AllSubmitted(sv, t, asked, cookies)
            && 0 < |asked| <= |cookies| && 0 < |sv.submits| && p < |sv.polls|
            && sv.submits[|sv.submits| - 1] < sv.polls[p] < |sv.run|
            && var c := sv.run[sv.polls[p]].core;
               polls[p].status == IsComplete(cookies[|asked| - 1], c.completedCookie, c.cookie)
  {
    hide IsRun, IsComplete, Asked, Accepted, Submits, OrderOf;
  }

  /** The single transaction of the request was executed. */
  lemma WholeExecuted(sv: Service, p: nat, t: Transfer, answers: seq<int>, polls: seq<Poll>)
    requires Served(sv, t, answers, polls) && t.pin == NoUser && p < |polls| && polls[p].status == Success
    requires Settled(sv, p)
    ensures |Numbers(sv)| == 1 && Executed(sv.run[sv.polls[p]], Numbers(sv)[0])
    ensures var w, n := sv.run[sv.polls[p]], Numbers(sv)[0];
            1 <= n <= |w.h.ch.txs| && w.h.ch.txs[n - 1].order == OrderOf(Whole(t.len), t, sv.frames)
  {
    hide Served, IsRun, AllSubmitted, IsComplete, CookieOf, OrderOf, Executed, Accepted;
    var asked, cookies, i := Asked(t.user, t.len, t.pin), Accepted(answers), sv.polls[p];
    assert asked == [Whole(t.len)];
    hide Asked;
    ServedParts(sv, t, answers, polls, p);
    SubmittedCount(sv, t, asked, cookies);
    AllTxs(sv, t, asked, cookies, i);
    var n, w := Numbers(sv)[0], sv.run[i];
    assert IsComplete(CookieOf(n), w.core.completedCookie, w.core.cookie) == Success;
    LastCookieSuffices(sv.run, sv.acts, i, n, n);
  }

  lemma FirstInLog(w: World, n: nat)
    requires Executed(w, n)
    ensures 1 <= n <= |w.h.ch.txs| && w.h.ch.txs[n - 1].first <= |w.h.dv.log|
  {
    hide Split;
  }

  /** The submissions of the pages are the orders of the chunks. */
  lemma PageOrders(t: Transfer, frames: seq<nat>)
    requires t.pin == Successful && t.len > 0 && |frames| == PS.NrPages(t.user, t.len)
    ensures var cs, asked := PS.Chunks(t.user, t.len), Asked(t.user, t.len, t.pin);
            && |cs| == |asked| == |frames| > 0
            && (forall k :: 0 <= k < |cs| ==> cs[k].page == k)
            && (forall k :: 0 <= k < |cs| ==>
                  OrderOf(asked[k], t, frames) == IR.OrderOf(cs[k], frames, t.kernel, t.toUser))
  {
    PS.SplitTheorem(t.user, t.len);
    hide PS.Chunks, PS.NrPages, IR.OrderOf;
    var cs := PS.Chunks(t.user, t.len);
    forall k | 0 <= k < |cs| ensures cs[k].page == k {
      assert PS.ChunkOk(cs[k], k, t.user, t.len);
    }
  }

  lemma PagesSubmitted(sv: Service, i: nat, t: Transfer, cookies: seq<int>)
    requires IsRun(sv.run, sv.acts) && t.pin == Successful && t.len > 0 && |sv.frames| == PS.NrPages(t.user, t.len)
    requires AllSubmitted(sv, t, Asked(t.user, t.len, t.pin), cookies)
    requires sv.submits[|sv.submits| - 1] < i < |sv.run|
    ensures IR.Submitted(sv.run[i], Numbers(sv), PS.Chunks(t.user, t.len), sv.frames, t.kernel, t.toUser)
    ensures var n := |Numbers(sv)|; n > 0 && n <= |cookies| && cookies[n - 1] == CookieOf(Numbers(sv)[n - 1])
  {
    hide IsRun, PS.Chunks, PS.NrPages, IR.OrderOf, OrderOf, Asked, Submits, CookieOf;
    AllTxs(sv, t, Asked(t.user, t.len, t.pin), cookies, i);
    PageOrders(t, sv.frames);
  }

  lemma PagesFinished(sv: Service, p: nat, t: Transfer, answers: seq<int>, polls: seq<Poll>)
    requires Served(sv, t, answers, polls) && t.pin == Successful && t.len > 0
    requires p < |polls| && polls[p].status == Success && Settled(sv, p)
    ensures IR.Finished(sv.run[sv.polls[p]], Numbers(sv), PS.Chunks(t.user, t.len), sv.frames, t.kernel, t.toUser)
  {
    hide IsRun, PS.Chunks, PS.NrPages, AllSubmitted, AllPolled, IsComplete, CookieOf, Accepted, IR.Submitted, Asked, Numbers;
    ServedParts(sv, t, answers, polls, p);
    SubmittedCount(sv, t, Asked(t.user, t.len, t.pin), Accepted(answers));
    PagesSubmitted(sv, sv.polls[p], t, Accepted(answers));
    PageOrders(t, sv.frames);
    SubmittedNumbers(sv.run[sv.polls[p]], Numbers(sv), PS.Chunks(t.user, t.len), sv.frames, t.kernel, t.toUser);
  }

  lemma SubmittedCount(sv: Service, t: Transfer, asked: seq<Submission>, cookies: seq<int>)
    requires AllSubmitted(sv, t, asked, cookies)
    ensures |sv.submits| == |asked| == |Numbers(sv)| && asked != []
  {}

  lemma SubmittedNumbers(w: World, ns: seq<nat>, cs: seq<PS.Chunk>, frames: seq<nat>, kernel: nat, toUser: bool)
    requires IR.Submitted(w, ns, cs, frames, kernel, toUser) && cs != []
    ensures |ns| == |cs| && ns != []
  {}

  lemma PagesUndisturbed(sv: Service, p: nat, t: Transfer, mem: seq<int>)
    requires t.pin == Successful && t.len > 0 && |sv.frames| == PS.NrPages(t.user, t.len) && Untouched(sv, p, t, mem)
    ensures var cs := PS.Chunks(t.user, t.len);
            && |cs| == |sv.frames| && (forall k :: 0 <= k < |cs| ==> cs[k].page == k)
            && IR.Undisturbed(mem, PollLog(sv, p), cs, sv.frames, t.kernel, t.toUser)
  {
    hide PS.Chunks, PS.NrPages, PollLog, AllFit, Fits, Disjoint, Harmless, OrderOf, IR.OrderOf, Asked;
    PageOrders(t, sv.frames);
  }

  lemma PagesArrived(sv: Service, p: nat, t: Transfer, answers: seq<int>, polls: seq<Poll>, mem: seq<int>)
    requires Served(sv, t, answers, polls) && t.pin == Successful && t.len > 0
    requires p < |polls| && polls[p].status == Success && Settled(sv, p) && Untouched(sv, p, t, mem)
    ensures AllArrived(sv, p, t, mem)
  {
    PagesFinished(sv, p, t, answers, polls);
    PagesUndisturbed(sv, p, t, mem);
    assert sv.polls[p] < |sv.run| && PollLog(sv, p) == IR.LogFrom(sv.run[sv.polls[p]], Numbers(sv));
    hide IsRun, PS.Chunks, PS.NrPages, AllSubmitted, AllPolled, Exec, PollLog, IR.Finished, IR.Undisturbed, IR.Arrived,
         IR.LogFrom, Numbers, Accepted, Asked;
    forall x | 0 <= x < t.len
      ensures IR.Arrived(mem, Exec(mem, PollLog(sv, p)), t.user, sv.frames, t.kernel, t.toUser, x)
    {
      IR.RequestCopied(sv.run, sv.acts, sv.polls[p], Numbers(sv), t.user, t.len, sv.frames, t.kernel, t.toUser, mem, x);
    }
  }

  /** The poll that ends a wait. */
  function Ending(polls: seq<Poll>): nat {
    if polls == [] || polls[0].late || polls[0].status != InProgress then 0 else 1 + Ending(polls[1..])
  }

  lemma {:induction false} EndingSucceeds(polls: seq<Poll>)
    requires Wait(polls) == Some(Success)
    ensures WaitedFor(polls, Ending(polls))
  {
    if polls[0] == Poll(InProgress, false) {
      EndingSucceeds(polls[1..]);
      var k := Ending(polls[1..]);
      assert forall j :: 0 < j < k + 1 ==> polls[j] == polls[1..][j - 1];
    }
  }

  /** A request that waited successfully, served by a channel: all its bytes have arrived in the state
      of the poll that ended the wait. */
  lemma ServedArrives(sv: Service, t: Transfer, answers: seq<int>, polls: seq<Poll>, mem: seq<int>)
    requires t.len > 0 && t.pin != Failed && Wait(polls) == Some(Success)
    requires Served(sv, t, answers, polls)
    requires Settled(sv, Ending(polls)) && Untouched(sv, Ending(polls), t, mem)
    ensures AllArrived(sv, Ending(polls), t, mem)
  {
    hide Served, Settled, Untouched, AllArrived;
    EndingSucceeds(polls);
    if t.pin == NoUser {
      WholeArrived(sv, Ending(polls), t, answers, polls, mem);
    } else {
      PagesArrived(sv, Ending(polls), t, answers, polls, mem);
    }
  }
}
