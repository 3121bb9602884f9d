/**
 Transaction cookies of a DMA channel: how they are handed out, and what
 `dma_async_is_complete` can conclude from three of them.  Cookies are 32-bit and wrap from
 INT_MAX to 1, so every statement is about transaction numbers, which do not wrap.
 */
module DmaCookies {

  const INT_MAX: nat := 0x7fff_ffff

  datatype Status = Success | InProgress | Paused | Error | NotStarted

  /** Cookie of the `n`-th transaction of a channel; number 0 is the value a fresh channel holds. */
  function CookieOf(n: nat): (c: nat)
    ensures 1 <= c <= INT_MAX
  {
    n % INT_MAX + 1
  }

  /** `dma_cookie_assign`: the next positive 32-bit value. */
  function NextCookie(c: nat): nat
    requires 1 <= c <= INT_MAX
  {
    if c == INT_MAX then 1 else c + 1
  }

  lemma AssignCountsUp(n: nat)
    ensures NextCookie(CookieOf(n)) == CookieOf(n + 1)
  {}

  /** `dma_async_is_complete` */
  function IsComplete(cookie: int, lastComplete: int, lastUsed: int): Status {
    if lastComplete <= lastUsed then
      if cookie <= lastComplete || cookie > lastUsed then Success else InProgress
    else
      if cookie <= lastComplete && cookie > lastUsed then Success else InProgress
  }

  /** The cookies that are still told apart: the last INT_MAX handed out. */
  predicate Recent(n: nat, issued: nat) {
    n <= issued < n + INT_MAX
  }

  /** The test tells the truth about every recent transaction. */
  ghost predicate Truthful(completed: nat, issued: nat) {
    forall n: nat :: Recent(n, issued) ==>
      (IsComplete(CookieOf(n), CookieOf(completed), CookieOf(issued)) == Success <==> n <= completed)
  }

  lemma WrapBetween(a: nat, b: nat)
    requires a <= b < a + INT_MAX
    ensures CookieOf(b) == if CookieOf(a) + (b - a) <= INT_MAX
                           then CookieOf(a) + (b - a) else CookieOf(a) + (b - a) - INT_MAX
  {}

  lemma StatusExact(n: nat, completed: nat, issued: nat)
    requires completed <= issued < completed + INT_MAX && Recent(n, issued)
    ensures IsComplete(CookieOf(n), CookieOf(completed), CookieOf(issued)) == Success
            <==> n <= completed
  {
    WrapBetween(completed, issued);
    WrapBetween(n, issued);
    if n <= completed { WrapBetween(n, completed); } else { WrapBetween(completed, n); }
  }

  /** The test is truthful exactly while fewer than INT_MAX transactions are outstanding;
      beyond that some outstanding transaction is reported as done. */
  lemma TruthfulIff(completed: nat, issued: nat)
    requires completed <= issued
    ensures Truthful(completed, issued) <==> issued - completed < INT_MAX
  {
    if issued - completed < INT_MAX {
      forall n: nat | Recent(n, issued)
        ensures IsComplete(CookieOf(n), CookieOf(completed), CookieOf(issued)) == Success
                <==> n <= completed
      {
        StatusExact(n, completed, issued);
      }
    } else {
      var n := AliasOf(completed, issued);
      assert Recent(n, issued) && n > completed;
    }
  }

  /** A recent transaction that carries the same cookie as the last completed one. */
  lemma AliasOf(completed: nat, issued: nat) returns (n: nat)
    requires issued - completed >= INT_MAX
    ensures Recent(n, issued) && n > completed && CookieOf(n) == CookieOf(completed)
  {
    n := issued - (issued - completed) % INT_MAX;
    var q := (issued - completed) / INT_MAX;
    assert n == completed + q * INT_MAX;
    assert n % INT_MAX == completed % INT_MAX;
  }
}
