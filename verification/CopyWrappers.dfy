/**
 The wrappers around a DMA copy, which fall back to the CPU: what their return value 0 promises.
 */
module CopyWrappers {
  import opened DmaCookies
  import opened PageSplit
  import opened DmaCopy
  import opened DmaServed

  /**
   By whom the bytes were copied, given the return value 0: by the DMA engine, in which case they have
   all arrived if the request was served by a channel that nobody restarted and nobody else wrote to
   its buffers; or by the CPU, which left nothing over.
   */
  ghost predicate AllCopied(byDma: bool, cpuLeft: nat, sv: Service, t: Transfer, answers: seq<int>,
                            polls: seq<Poll>, mem: seq<int>)
  {
    if byDma then
      Served(sv, t, answers, polls) && Settled(sv, Ending(polls)) && Untouched(sv, Ending(polls), t, mem)
      ==> AllArrived(sv, Ending(polls), t, mem)
    else cpuLeft == 0
  }

  /**
   copy_from_user_dma_pure, copy_to_user_dma_pure and their siblings; `cpuLeft` is what the CPU copy
   would leave over.
   */
  method CopyDma(user: nat, kernel: nat, n: nat, toUser: bool, hasChannel: bool, pin: Pin, answers: seq<int>,
                 polls: seq<Poll>, cpuLeft: nat, ghost sv: Service, ghost mem: seq<int>)
    returns (r: int, req: Request, done: bool)
    requires n <= TWO64 - TWO32
    ensures fresh(req) && req.userBase == user && req.len == n
    ensures done ==> (req.status == Success <==> n > 0 && hasChannel && pin != Failed && exists k :: WaitedFor(polls, k))
    ensures done ==> r == if req.status == Success then 0 else cpuLeft
    ensures done && req.status == Success ==>
      && Wait(polls) == Some(Success) && req.log == Asked(user, n, pin)
      && req.cookies != [] && req.cookies <= Accepted(answers) && req.cookie == req.cookies[|req.cookies| - 1]
    ensures done && r == 0 ==>
      AllCopied(req.status == Success, cpuLeft, sv, Transfer(user, kernel, n, toUser, pin), answers, polls, mem)
  {
    hide Asked, Accepted, Wait, Served, Settled, Untouched, AllArrived;
    req := new Request(user, kernel, n);
    r, done := req.Run(hasChannel, pin, answers, polls);
    if done && req.status == Success {
      Promise(Transfer(user, kernel, n, toUser, pin), cpuLeft, answers, polls, sv, mem);
    }
    if done && (r < 0 || req.status != Success) {
      r := cpuLeft;
    }
  }

  lemma Promise(t: Transfer, cpuLeft: nat, answers: seq<int>, polls: seq<Poll>, sv: Service, mem: seq<int>)
    requires t.len > 0 && t.pin != Failed && Wait(polls) == Some(Success)
    ensures AllCopied(true, cpuLeft, sv, t, answers, polls, mem)
  {
    hide Wait, Served, Settled, Untouched, AllArrived;
    if Served(sv, t, answers, polls) && Settled(sv, Ending(polls)) && Untouched(sv, Ending(polls), t, mem) {
      ServedArrives(sv, t, answers, polls, mem);
    }
  }

  datatype Op = CopyByDma | CopyByCpu

  /**
   The traced copy_from_user.  Its result is unsigned, so its test for an error is only the test of
   the status; the trace record names who copied and how much was copied.
   */
  method TracedCopy(user: nat, kernel: nat, n: nat, hasChannel: bool, pin: Pin, answers: seq<int>,
                    polls: seq<Poll>, cpuLeft: nat, ghost sv: Service, ghost mem: seq<int>)
    returns (left: nat, size: int, op: Op, req: Request, done: bool)
    requires n <= TWO64 - TWO32
    ensures fresh(req) && req.userBase == user && req.len == n
    ensures done ==> size == n - left && (op == CopyByDma <==> req.status == Success)
    ensures done ==> (op == CopyByDma <==> n > 0 && hasChannel && pin != Failed && exists k :: WaitedFor(polls, k))
    ensures done ==> left == if op == CopyByDma then 0 else cpuLeft
    ensures done && op == CopyByDma ==> Wait(polls) == Some(Success) && req.log == Asked(user, n, pin)
    ensures done && left == 0 ==>
      AllCopied(op == CopyByDma, cpuLeft, sv, Transfer(user, kernel, n, false, pin), answers, polls, mem)
  {
    hide Asked, Accepted, Wait, Served, Settled, Untouched, AllArrived;
    req := new Request(user, kernel, n);
    op := CopyByDma;
    var r;
    r, done := req.Run(hasChannel, pin, answers, polls);
    left := r % TWO64;
    if done && req.status != Success {
      op := CopyByCpu;
      left := cpuLeft;
    } else if done {
      Promise(Transfer(user, kernel, n, false, pin), cpuLeft, answers, polls, sv, mem);
    }
    size := n - left;
  }
}
