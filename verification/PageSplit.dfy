/**
 The page-by-page split of a user copy: the loop of __dma_copy_from_user and __dma_copy_to_user, and
 the number of pages that dma_pin_user_pages pins for it.
 */
module PageSplit {

  const PAGE_SIZE: nat := 4096
  const TWO31: nat := 0x8000_0000
  const TWO32: nat := 0x1_0000_0000
  const TWO64: nat := 0x1_0000_0000_0000_0000

  /** One submission: bytes `off` to `off + len` of pinned page `page`, and offset `at` of the kernel buffer. */
  datatype Chunk = Chunk(page: nat, off: nat, at: nat, len: nat)

  function Min(a: int, b: int): int { if a <= b then a else b }

  /** The chunks of `len` bytes that start in page `page` at `off`. */
  function ChunksFrom(page: nat, off: nat, at: nat, len: nat): (r: seq<Chunk>)
    requires off < PAGE_SIZE
    ensures len > 0 ==> r != []
    decreases len
  {
    if len == 0 then []
    else
      var n := Min(PAGE_SIZE - off, len);
      [Chunk(page, off, at, n)] + ChunksFrom(page + 1, 0, at + n, len - n)
  }

  function Chunks(user: nat, len: nat): seq<Chunk> {
    ChunksFrom(0, user % PAGE_SIZE, 0, len)
  }

  function PageAlign(x: nat): nat { (x + PAGE_SIZE - 1) / PAGE_SIZE * PAGE_SIZE }

  /** nr_pages, in arithmetic without wrap-around */
  function NrPages(user: nat, len: nat): (r: nat)
    ensures len > 0 ==> r > 0
  {
    (PageAlign(user + len) - user / PAGE_SIZE * PAGE_SIZE) / PAGE_SIZE
  }

  lemma {:induction false} CountFrom(page: nat, off: nat, at: nat, len: nat)
    requires off < PAGE_SIZE && len > 0
    ensures |ChunksFrom(page, off, at, len)| == (off + len + PAGE_SIZE - 1) / PAGE_SIZE
    decreases len
  {
    var n := Min(PAGE_SIZE - off, len);
    if n < len { CountFrom(page + 1, 0, at + n, len - n); }
  }

  /** Chunk `k` of a copy: its own page, within the page, where the bytes before it end. */
  predicate ChunkOk(c: Chunk, k: nat, user: nat, len: nat) {
    && c.page == k && 0 < c.len && c.off + c.len <= PAGE_SIZE
    && c.at + c.len <= len
    && (user / PAGE_SIZE + c.page) * PAGE_SIZE + c.off == user + c.at
  }

  /** Chunk `k` ends where the next one starts, the last at `len`. */
  predicate Meets(cs: seq<Chunk>, k: nat, len: nat) {
    k < |cs| && cs[k].at + cs[k].len == if k + 1 < |cs| then cs[k + 1].at else len
  }

  lemma {:induction false} ChunksFromOk(page: nat, off: nat, at: nat, rest: nat, user: nat, len: nat, k: nat)
    requires off < PAGE_SIZE && at + rest == len && k < |ChunksFrom(page, off, at, rest)|
    requires rest > 0 ==> (user / PAGE_SIZE + page) * PAGE_SIZE + off == user + at
    ensures ChunkOk(ChunksFrom(page, off, at, rest)[k], page + k, user, len)
    ensures k == 0 ==> ChunksFrom(page, off, at, rest)[k].at == at
    ensures Meets(ChunksFrom(page, off, at, rest), k, len)
    decreases rest
  {
    var n := Min(PAGE_SIZE - off, rest);
    var tail := ChunksFrom(page + 1, 0, at + n, rest - n);
    if k > 0 {
      ChunksFromOk(page + 1, 0, at + n, rest - n, user, len, k - 1);
    } else if n < rest {
      ChunksFromOk(page + 1, 0, at + n, rest - n, user, len, 0);
    }
  }

  /**
   There are as many chunks as pinned pages; chunk `k` uses page `k` and stays in it; each chunk
   starts where the one before ended, the first at 0 and the last ending at `len`.
   */
  lemma SplitTheorem(user: nat, len: nat)
    requires len > 0
    ensures var cs := Chunks(user, len);
            && |cs| == NrPages(user, len)
            && cs[0].at == 0
            && (forall k :: 0 <= k < |cs| ==> ChunkOk(cs[k], k, user, len))
            && (forall k :: 0 <= k < |cs| ==> Meets(cs, k, len))
  {
    var off := user % PAGE_SIZE;
    CountFrom(0, off, 0, len);
    var cs := Chunks(user, len);
    hide ChunksFrom;
    forall k | 0 <= k < |cs|
      ensures ChunkOk(cs[k], k, user, len)
      ensures Meets(cs, k, len)
    {
      ChunksFromOk(0, off, 0, len, user, len, k);
    }
    ChunksFromOk(0, off, 0, len, user, len, 0);
  }

  predicate Holds(c: Chunk, x: nat) { c.at <= x < c.at + c.len }

  /** Every byte is in a chunk. */
  lemma {:induction false} FindChunk(page: nat, off: nat, at: nat, rest: nat, x: nat) returns (k: nat)
    requires off < PAGE_SIZE && at <= x < at + rest
    ensures k < |ChunksFrom(page, off, at, rest)| && Holds(ChunksFrom(page, off, at, rest)[k], x)
    decreases rest
  {
    var n := Min(PAGE_SIZE - off, rest);
    if x < at + n {
      k := 0;
    } else {
      k := FindChunk(page + 1, 0, at + n, rest - n, x);
      k := k + 1;
    }
  }

  /** Later chunks lie behind earlier ones. */
  lemma {:induction false} Behind(cs: seq<Chunk>, len: nat, j: nat, k: nat)
    requires forall k :: 0 <= k < |cs| ==> Meets(cs, k, len)
    requires j < k < |cs|
    ensures cs[j].at + cs[j].len <= cs[k].at
    decreases k
  {
    if j + 1 < k { Behind(cs, len, j, k - 1); }
    assert Meets(cs, k - 1, len);
  }

  /** Every byte is in exactly one chunk, at the place of its user address. */
  lemma CoveredOnce(user: nat, len: nat, x: nat)
    requires x < len
    ensures var cs := Chunks(user, len);
            exists k :: 0 <= k < |cs| && Holds(cs[k], x)
                        && (forall j :: 0 <= j < |cs| && j != k ==> !Holds(cs[j], x))
                        && (user / PAGE_SIZE + cs[k].page) * PAGE_SIZE + cs[k].off + (x - cs[k].at) == user + x
  {
    var cs := Chunks(user, len);
    SplitTheorem(user, len);
    var k := FindChunk(0, user % PAGE_SIZE, 0, len, x);
    hide ChunksFrom, NrPages;
    assert ChunkOk(cs[k], k, user, len);
    forall j | 0 <= j < |cs| && j != k ensures !Holds(cs[j], x) {
      if j < k { Behind(cs, len, j, k); } else { Behind(cs, len, k, j); }
    }
  }

  // ----- the loop in C arithmetic

  /** Conversion to int. */
  function Int32(x: nat): (r: int)
    ensures -0x8000_0000 <= r < TWO31
  {
    var y := x % TWO32;
    if y < TWO31 then y else y - TWO32
  }

  /** min_t(int, ...) */
  function MinInt(a: nat, b: nat): int { Min(Int32(a), Int32(b)) }

  /** Subtraction of an int from a size_t. */
  function Less(left: nat, copy: int): (r: nat)
    ensures r < TWO64
  {
    (left - copy) % TWO64
  }

  lemma MinIntFits(off: nat, left: nat)
    requires off < PAGE_SIZE && left < TWO31
    ensures MinInt(PAGE_SIZE - off, left) == Min(PAGE_SIZE - off, left)
    ensures Less(left, MinInt(PAGE_SIZE - off, left)) == left - Min(PAGE_SIZE - off, left)
  {}

  /** Lengths from 2^31 on, up to where the counter would wrap. */
  predicate TooLong(left: nat) { TWO31 <= left <= TWO64 - TWO32 }

  /** From such a length the loop never comes to 0. */
  lemma TooLongStays(off: nat, left: nat)
    requires off < PAGE_SIZE && TooLong(left)
    ensures TooLong(Less(left, MinInt(PAGE_SIZE - off, left)))
  {
    var hi, lo := left / TWO32, left % TWO32;
    var copy := MinInt(PAGE_SIZE - off, left);
    if lo < TWO31 {
      assert 0 <= copy <= lo;
    } else {
      assert copy == lo - TWO32;
      assert left - copy == (hi + 1) * TWO32;
    }
  }
}
