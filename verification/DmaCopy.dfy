/**
 A copy between user and kernel memory through the DMA engine: the submitting loop with its retries,
 and the wait for the last cookie.

 The channel's answers and the polls of its status are parameters; a loop that is still waiting when
 they run out has not returned, which `done` tells.
 */
module DmaCopy {
  import opened DmaCookies
  import opened PageSplit

  const EBUSY: int := 16

  datatype Pin = Successful | NoUser | Failed

  /** A transfer handed to the channel: part of a page, or one kernel-to-kernel copy. */
  datatype Submission = Paged(chunk: Chunk) | Whole(len: nat)

  /** One look of dma_sync_wait: the status, and whether the time is over. */
  datatype Poll = Poll(status: Status, late: bool)

  /** The cookies among the channel's answers; a negative answer means that no slot was free. */
  function Accepted(answers: seq<int>): (r: seq<int>)
    ensures forall k :: 0 <= k < |r| ==> r[k] >= 0
  {
    if answers == [] then []
    else (if answers[0] < 0 then [] else [answers[0]]) + Accepted(answers[1..])
  }

  lemma AcceptedNone()
    ensures Accepted([]) == []
  {}

  lemma {:induction false} AcceptedApp(a: seq<int>, b: seq<int>)
    ensures Accepted(a + b) == Accepted(a) + Accepted(b)
  {
    if a == [] {
      assert a + b == b;
    } else {
      assert (a + b)[1..] == a[1..] + b;
      AcceptedApp(a[1..], b);
    }
  }

  /** Just the negative answers are retries. */
  lemma {:induction false} AcceptedAre(answers: seq<int>, c: int)
    ensures multiset(Accepted(answers))[c] == if c < 0 then 0 else multiset(answers)[c]
  {
    if answers != [] {
      AcceptedAre(answers[1..], c);
      assert answers == [answers[0]] + answers[1..];
    }
  }

  lemma AcceptedNext(answers: seq<int>, i: nat)
    requires i < |answers|
    ensures Accepted(answers[..i + 1]) == Accepted(answers[..i]) + (if answers[i] < 0 then [] else [answers[i]])
  {
    assert answers[..i + 1] == answers[..i] + [answers[i]];
    AcceptedApp(answers[..i], [answers[i]]);
  }

  lemma AcceptedPrefix(answers: seq<int>, i: nat)
    requires i <= |answers|
    ensures Accepted(answers[..i]) <= Accepted(answers)
  {
    assert answers == answers[..i] + answers[i..];
    AcceptedApp(answers[..i], answers[i..]);
  }

  function Pages(cs: seq<Chunk>): (r: seq<Submission>)
    ensures |r| == |cs| && forall k :: 0 <= k < |cs| ==> r[k] == Paged(cs[k])
  {
    seq(|cs|, k requires 0 <= k < |cs| => Paged(cs[k]))
  }

  // ----- dma_sync_wait

  datatype Option<T> = None | Some(value: T)

  /** The first poll that ends the wait decides. */
  function Wait(polls: seq<Poll>): Option<Status> {
    if polls == [] then None
    else if polls[0].late then Some(Error)
    else if polls[0].status != InProgress then Some(polls[0].status)
    else Wait(polls[1..])
  }

  predicate WaitedFor(polls: seq<Poll>, k: nat) {
    && k < |polls| && polls[k] == Poll(Success, false)
    && forall j :: 0 <= j < k ==> polls[j] == Poll(InProgress, false)
  }

  /** Success is returned exactly if it was seen in time. */
  lemma {:induction false} WaitSuccess(polls: seq<Poll>)
    ensures Wait(polls) == Some(Success) <==> exists k :: WaitedFor(polls, k)
  {
    if polls != [] {
      var rest := polls[1..];
      WaitSuccess(rest);
      if polls[0] == Poll(Success, false) {
        assert WaitedFor(polls, 0);
      } else if polls[0] == Poll(InProgress, false) {
        if k: nat :| WaitedFor(rest, k) { assert WaitedFor(polls, k + 1); }
        if k: nat :| WaitedFor(polls, k) { assert WaitedFor(rest, k - 1); }
      } else if k: nat :| WaitedFor(polls, k) {
        assert false;
      }
    }
  }

  /** Poll `k` ends the wait with status `s`: the time is over, or the work is no longer in progress. */
  predicate EndedBy(polls: seq<Poll>, k: nat, s: Status) {
    && k < |polls| && (polls[k].late || polls[k].status != InProgress)
    && s == (if polls[k].late then Error else polls[k].status)
    && forall j :: 0 <= j < k ==> polls[j] == Poll(InProgress, false)
  }

  /** What a wait returns, and when it does. */
  lemma {:induction false} WaitEnds(polls: seq<Poll>)
    ensures forall s :: Wait(polls) == Some(s) <==> exists k :: EndedBy(polls, k, s)
    ensures forall k, s :: EndedBy(polls, k, s) ==> Wait(polls) == Some(s)
    ensures Wait(polls) == None <==> forall k :: 0 <= k < |polls| ==> polls[k] == Poll(InProgress, false)
  {
    if polls != [] {
      var rest := polls[1..];
      WaitEnds(rest);
      forall s ensures Wait(polls) == Some(s) <==> exists k :: EndedBy(polls, k, s) {
        if polls[0] == Poll(InProgress, false) {
          if k: nat :| EndedBy(rest, k, s) { assert EndedBy(polls, k + 1, s); }
          if k: nat :| EndedBy(polls, k, s) { assert k > 0 && EndedBy(rest, k - 1, s); }
        } else {
          assert EndedBy(polls, 0, if polls[0].late then Error else polls[0].status);
          if k: nat :| EndedBy(polls, k, s) { assert k == 0; }
        }
      }
      forall k, s | EndedBy(polls, k, s) ensures Wait(polls) == Some(s) {}
      assert forall k :: 0 < k < |polls| ==> polls[k] == rest[k - 1];
    }
  }

  method SyncWait(polls: seq<Poll>) returns (r: Option<Status>)
    ensures r == Wait(polls)
  {
    for i := 0 to |polls|
      invariant Wait(polls) == Wait(polls[i..])
    {
      if polls[i].late { return Some(Error); }
      if polls[i].status != InProgress { return Some(polls[i].status); }
    }
    r := None;
  }

  // ----- the request

  /** What the channel must have been given for a request to be complete. */
  function Asked(user: nat, len: nat, pin: Pin): seq<Submission> {
    if pin == NoUser then [Whole(len)] else Pages(Chunks(user, len))
  }

  class Request {
    const userBase: nat
    const kernelBase: nat
    const len: nat
    var nrPages: nat
    var cookie: int
    var status: Status
    var log: seq<Submission>         // accepted by the channel, in order
    var cookies: seq<int>            // their cookies

    /** init_req_copy */
    constructor (user: nat, kernel: nat, length: nat)
      ensures userBase == user && kernelBase == kernel && len == length
      ensures status == NotStarted && log == [] && cookies == []
    {
      userBase, kernelBase, len := user, kernel, length;
      nrPages, cookie, status, log, cookies := 0, 0, NotStarted, [], [];
    }

    /** The loop of __dma_copy_from_user and __dma_copy_to_user, up to the wait. */
    method SubmitPages(answers: seq<int>) returns (left: nat, done: bool)
      requires 0 < len < TWO64 && log == [] && cookies == []
      modifies this`cookie, this`log, this`cookies
      ensures len < TWO31 ==> (done <==> |Chunks(userBase, len)| <= |Accepted(answers)|)
      ensures len < TWO31 && done ==> left == 0 && log == Pages(Chunks(userBase, len))
      ensures len < TWO31 && !done ==> log <= Pages(Chunks(userBase, len))
      ensures TooLong(len) ==> !done
      ensures |log| == |cookies| && cookies <= Accepted(answers)
      ensures done ==> log != [] && cookie == cookies[|cookies| - 1]
    {
      hide MinInt, Less, Accepted, Underway, Chunks, ChunksFrom, Pages, TooLong;
      var page: nat, off: nat, at: nat := 0, userBase % PAGE_SIZE, 0;
      left, done := len, false;
      var copy := MinInt(PAGE_SIZE - off, left);
      assert answers[..0] == [];
      AcceptedNone();
      UnderwayStart(userBase, len);
      var i := 0;
      while i < |answers|
        invariant i <= |answers| && off < PAGE_SIZE && copy == MinInt(PAGE_SIZE - off, left)
        invariant Underway(userBase, len, page, off, at, left, log)
        invariant |log| == |cookies| && cookies == Accepted(answers[..i])
      {
        cookie := answers[i];
        AcceptedNext(answers, i);
        i := i + 1;
        if cookie < 0 { continue; }
        Turn(userBase, len, page, off, at, left, log);
        log, cookies := log + [Paged(Chunk(page, off, at, copy % TWO64))], cookies + [cookie];
        left := Less(left, copy);
        if left == 0 {
          AcceptedPrefix(answers, i);
          return 0, true;
        }
        at := (at + copy) % TWO64;
        off := 0;
        page := page + 1;
        copy := MinInt(PAGE_SIZE, left);
      }
      assert answers[..i] == answers;
      UnderwayLog(userBase, len, page, off, at, left, log);
    }

    /** The loop of dma_copy_from_kernel and dma_copy_to_kernel, up to the wait. */
    method SubmitWhole(answers: seq<int>) returns (done: bool)
      requires log == [] && cookies == []
      modifies this`cookie, this`log, this`cookies
      ensures done <==> Accepted(answers) != []
      ensures done ==> log == [Whole(len)] && cookies == [cookie] && cookie == Accepted(answers)[0]
      ensures !done ==> log == [] && cookies == []
    {
      for i := 0 to |answers|
        invariant log == [] && cookies == [] && Accepted(answers) == Accepted(answers[i..])
      {
        cookie := answers[i];
        if cookie >= 0 {
          log, cookies := [Whole(len)], [cookie];
          return true;
        }
      }
      done := false;
    }

    /**
     dma_copy_from_user and dma_copy_to_user.  With a channel and pages, or with kernel buffers, the
     status is that of the poll that ended the wait for the last cookie of a complete request, and the
     return value is 0; without a channel, without pinned pages or for length 0 the status stays as it
     was.
     */
    method Run(hasChannel: bool, pin: Pin, answers: seq<int>, polls: seq<Poll>) returns (r: int, done: bool)
      requires len <= TWO64 - TWO32 && status == NotStarted && log == [] && cookies == []
      modifies this
      ensures len == 0 ==> done && r == 0 && status == NotStarted && log == []
      ensures len > 0 && !hasChannel ==> done && r == -EBUSY && status == NotStarted && log == []
      ensures len > 0 && hasChannel && pin == Failed ==> done && r == Int32(len) && status == NotStarted && log == []
      ensures done && len > 0 && hasChannel && pin != Failed ==> r == 0 && exists k :: EndedBy(polls, k, status)
      ensures done ==>
        (status == Success <==> len > 0 && hasChannel && pin != Failed && exists k :: WaitedFor(polls, k))
      ensures len > 0 && hasChannel && pin == NoUser ==>
        (done <==> Accepted(answers) != [] && exists k, s :: EndedBy(polls, k, s))
      ensures done && status == Success ==>
        && len > 0 && hasChannel && pin != Failed && r == 0 && Wait(polls) == Some(Success)
        && log == Asked(userBase, len, pin) && log != []
        && |cookies| == |log| && cookies <= Accepted(answers) && cookie == cookies[|cookies| - 1]
      ensures len > 0 && hasChannel && pin == Successful ==> nrPages == NrPages(userBase, len)
      ensures len >= TWO31 && hasChannel && pin == Successful ==> !done
      ensures 0 < len < TWO31 && hasChannel && pin == Successful ==>
        (done <==> nrPages <= |Accepted(answers)| && exists k, s :: EndedBy(polls, k, s))
    {
      hide Chunks, Pages, Accepted, Wait, EndedBy, WaitedFor;
      WaitEnds(polls);
      WaitSuccess(polls);
      if len == 0 { return 0, true; }
      if !hasChannel { return -EBUSY, true; }
      if pin == NoUser {
        done := SubmitWhole(answers);
        if !done { return 0, false; }
      } else {
        nrPages := NrPages(userBase, len);
        if pin == Failed { return Int32(len), true; }
        CountPages(userBase, len);
        var left;
        left, done := SubmitPages(answers);
        if !done { return 0, false; }
      }
      var w := SyncWait(polls);
      if w == None { return 0, false; }
      status := w.value;
      return 0, true;
    }
  }

  lemma CountPages(user: nat, len: nat)
    requires len > 0
    ensures |Chunks(user, len)| == NrPages(user, len)
  {
    SplitTheorem(user, len);
  }

  /** What has been submitted and what is left make up the chunks; a length too long stays so. */
  predicate Underway(user: nat, len: nat, page: nat, off: nat, at: nat, left: nat, log: seq<Submission>) {
    && off < PAGE_SIZE
    && (len < TWO31 ==>
          && 0 < left <= len && at + left == len
          && log + Pages(ChunksFrom(page, off, at, left)) == Pages(Chunks(user, len)))
    && (TooLong(len) ==> TooLong(left))
  }

  lemma UnderwayStart(user: nat, len: nat)
    requires len > 0
    ensures Underway(user, len, 0, user % PAGE_SIZE, 0, len, [])
  {
    assert [] + Pages(Chunks(user, len)) == Pages(Chunks(user, len));
  }

  lemma UnderwayLog(user: nat, len: nat, page: nat, off: nat, at: nat, left: nat, log: seq<Submission>)
    requires Underway(user, len, page, off, at, left, log)
    ensures len < TWO31 ==> log <= Pages(Chunks(user, len)) && |log| < |Chunks(user, len)|
  {}

  /** One turn of the loop with a free slot. */
  lemma Turn(user: nat, len: nat, page: nat, off: nat, at: nat, left: nat, log: seq<Submission>)
    requires Underway(user, len, page, off, at, left, log)
    ensures var copy := MinInt(PAGE_SIZE - off, left);
            var log' := log + [Paged(Chunk(page, off, at, copy % TWO64))];
            if Less(left, copy) == 0
            then !TooLong(len) && (len < TWO31 ==> log' == Pages(Chunks(user, len)))
            else Underway(user, len, page + 1, 0, (at + copy) % TWO64, Less(left, copy), log')
  {
    hide MinInt, Less, TooLong, ChunksFrom, Chunks, Pages;
    if TooLong(len) { TooLongStays(off, left); TooLongPositive(); }
    if len < TWO31 { NextChunk(log, page, off, at, left, Pages(Chunks(user, len))); }
  }

  lemma TooLongPositive()
    ensures !TooLong(0) && forall x: nat :: x < TWO31 ==> !TooLong(x)
  {}

  /** One turn takes one chunk, for lengths that fit an int. */
  lemma NextChunk(log: seq<Submission>, page: nat, off: nat, at: nat, left: nat, all: seq<Submission>)
    requires off < PAGE_SIZE && 0 < left < TWO31 && log + Pages(ChunksFrom(page, off, at, left)) == all
    ensures var n := MinInt(PAGE_SIZE - off, left);
            && 0 < n <= left && Less(left, n) == left - n
            && (if n < left
                then log + [Paged(Chunk(page, off, at, n))] + Pages(ChunksFrom(page + 1, 0, at + n, left - n)) == all
                else log + [Paged(Chunk(page, off, at, n))] == all)
  {
    MinIntFits(off, left);
    var n := MinInt(PAGE_SIZE - off, left);
    var c := Chunk(page, off, at, n);
    var rest := ChunksFrom(page + 1, 0, at + n, left - n);
    assert ChunksFrom(page, off, at, left) == [c] + rest;
    hide MinInt, Less, Chunks, ChunksFrom;
    assert Pages([c] + rest) == [Paged(c)] + Pages(rest);
    assert log + ([Paged(c)] + Pages(rest)) == log + [Paged(c)] + Pages(rest);
    if n == left { assert rest == [] by { NoChunks(page + 1, 0, at + n); } }
  }

  lemma NoChunks(page: nat, off: nat, at: nat)
    requires off < PAGE_SIZE
    ensures ChunksFrom(page, off, at, 0) == []
  {}
}
