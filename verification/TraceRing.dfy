/**
 The per-CPU trace ring: one writer (the traced copy on that CPU, preemption disabled) and
 one reader (the trace device), with no lock between them.  `start` is stored only by the
 reader and `end` only by the writer.

 `CircularBuffer` is the ring as an object, each call running alone.  `Ring` is the same
 ring as a step system in which writer and reader interleave at every shared load and store.
 */
module TraceRing {

  /** One trace record.  `count` is `count_event`; `data` stands for the other fields. */
  datatype Record = Record(count: nat, data: int)

  // ----- index arithmetic

  /** One wrap at most: what `% size` does to an index below `2 * size`. */
  lemma ModOnce(x: nat, n: nat)
    requires 0 < n && x < 2 * n
    ensures x % n == if x < n then x else x - n
  {}

  /** The slot of the `i`-th record ever written. */
  function SlotOf(i: nat, n: nat): (s: nat)
    requires n > 0
    ensures s < n
    decreases i
  {
    if i < n then i else SlotOf(i - n, n)
  }

  /** Stepping `k <= n` slots on from slot `SlotOf(x)`. */
  lemma {:induction false} Advance(x: nat, k: nat, n: nat)
    requires n > 0 && k <= n
    ensures SlotOf(x + k, n) == Step(SlotOf(x, n), k, n)
    decreases x
  {
    if x >= n { Advance(x - n, k, n); }
  }

  /** `(at + k) % n` */
  function Step(at: nat, k: nat, n: nat): (s: nat)
    requires at < n && k <= n
    ensures s < n
    ensures s == if at + k < n then at + k else at + k - n
  {
    ModOnce(at + k, n);
    (at + k) % n
  }

  /** Fewer than `n` apart, different slots. */
  lemma DistinctSlots(i: nat, j: nat, n: nat)
    requires n > 0 && i < j < i + n
    ensures SlotOf(i, n) != SlotOf(j, n)
  {
    Advance(i, j - i, n);
  }

  /** The lengths of the two copies made by `cbRead_list`, given the `end` it loaded. */
  function Segments(start: nat, end: nat, n: nat, size: nat): (s: (nat, nat))
    requires start < n && end < n
    ensures s.0 + s.1 == Min(size, Filled(start, end, n))
    ensures start + s.0 <= n
    ensures s.1 > 0 ==> start + s.0 == n && s.1 <= end
  {
    if end == start then (0, 0)
    else if end < start then
      var first := n - start;
      if first + end > size
      then if first > size then (size, 0) else (first, size - first)
      else (first, end)
    else
      if end - start > size then (size, 0) else (end - start, 0)
  }

  function Min(a: nat, b: nat): nat { if a <= b then a else b }

  /** How many records lie between the two indices. */
  function Filled(start: nat, end: nat, n: nat): nat
    requires start < n && end < n
  {
    if start <= end then end - start else n - start + end
  }

  /** The records from `start` up to `end`, going round the end of the array if need be. */
  ghost function Window(a: seq<Record>, start: nat, end: nat): (w: seq<Record>)
    requires start < |a| && end < |a|
    ensures |w| == Filled(start, end, |a|)
  {
    if start <= end then a[start..end] else a[start..] + a[..end]
  }

  lemma WindowPush(a: seq<Record>, start: nat, end: nat, e: Record)
    requires start < |a| && end < |a| && Step(end, 1, |a|) != start
    ensures Window(a[end := e], start, Step(end, 1, |a|)) == Window(a, start, end) + [e]
  {}

  lemma WindowPop(a: seq<Record>, start: nat, end: nat, k: nat)
    requires start < |a| && end < |a| && k <= Filled(start, end, |a|) && start + k <= |a|
    ensures Window(a, start, end) == a[start..start + k] + Window(a, Step(start, k, |a|), end)
  {}

  // ----- the ring as an object

  class CircularBuffer {
    var countEvent: nat
    var start: nat
    var end: nat
    const size: nat
    const elements: array<Record>

    predicate Valid()
      reads this
    {
      && elements.Length == size > 0
      && start < size && end < size
    }

    /** The records waiting to be read, oldest first. */
    ghost function Contents(): (s: seq<Record>)
      requires Valid()
      reads this, elements
    {
      Window(elements[..], start, end)
    }

    constructor (n: nat)
      requires n > 0
      ensures Valid() && Contents() == [] && countEvent == 0 && size == n
      ensures fresh(elements)
    {
      size := n;
      elements := new Record[n](_ => Record(0, 0));
      start, end, countEvent := 0, 0, 0;
    }

    predicate IsFull()
      requires Valid()
      reads this
    {
      Step(end, 1, size) == start
    }

    predicate IsEmpty()
      requires Valid()
      reads this
    {
      end == start
    }

    /** `get_counter` */
    method GetCounter() returns (c: nat)
      requires Valid()
      modifies this`countEvent
      ensures Valid() && c == countEvent == old(countEvent) + 1
    {
      countEvent := countEvent + 1;
      c := countEvent;
    }

    /** `cbWrite`: append, unless that would make the ring look empty. */
    method Write(e: Record)
      requires Valid()
      modifies this`end, elements
      ensures Valid()
      ensures Contents() == if old(|Contents()|) == size - 1
                            then old(Contents()) else old(Contents()) + [e]
    {
      ghost var before := elements[..];
      if !IsFull() {
        WindowPush(before, start, end, e);
        elements[end] := e;
        assert elements[..] == before[end := e];
        end := Step(end, 1, size);
      }
    }

    /** `cbRead`: take the oldest record; callers ensure there is one. */
    method Read() returns (e: Record)
      requires Valid() && !IsEmpty()
      modifies this`start
      ensures Valid()
      ensures old(Contents()) == [e] + Contents()
    {
      WindowPop(elements[..], start, end, 1);
      e := elements[start];
      start := Step(start, 1, size);
    }

    /** `cbRead_list`: take up to `max` of the oldest records into the front of `out`. */
    method ReadList(out: array<Record>, max: nat) returns (copied: nat)
      requires Valid() && out != elements && max <= out.Length
      modifies this`start, out
      ensures Valid()
      ensures copied == Min(max, old(|Contents()|))
      ensures old(Contents()) == out[..copied] + Contents()
      ensures out[copied..] == old(out[copied..])
    {
      var (first, second) := Segments(start, end, size, max);
      TakeSegment(out, 0, first);
      ghost var got := out[..first];
      if second > 0 {
        TakeSegment(out, first, second);
      }
      copied := first + second;
      assert out[..copied] == got + out[first..copied];
    }

    /** Copy `count` records that do not go round the end of the array, then release them. */
    method TakeSegment(out: array<Record>, at: nat, count: nat)
      requires Valid() && out != elements && at + count <= out.Length
      requires start + count <= size && count <= Filled(start, end, size)
      modifies this`start, out
      ensures Valid() && start == Step(old(start), count, size)
      ensures old(Contents()) == out[at..at + count] + Contents()
      ensures out[..at] == old(out[..at]) && out[at + count..] == old(out[at + count..])
    {
      WindowPop(elements[..], start, end, count);
      CopyOut(out, at, count);
      start := Step(start, count, size);
    }

    /** One memcpy of `count` records from `start` on. */
    method CopyOut(out: array<Record>, at: nat, count: nat)
      requires Valid() && out != elements && at + count <= out.Length && start + count <= size
      modifies out
      ensures out[..at] == old(out[..at])
      ensures out[at..at + count] == elements[..][start..start + count]
      ensures out[at + count..] == old(out[at + count..])
    {
      var k := 0;
      while k < count
        invariant k <= count
        invariant out[at..at + k] == elements[..][start..start + k]
        invariant forall i :: 0 <= i < at || at + k <= i < out.Length ==> out[i] == old(out[i])
      {
        out[at + k] := elements[start + k];
        k := k + 1;
      }
    }
  }

  // ----- the ring as a step system

  // While a record is being stored its slot holds neither the old record nor the new one.
  datatype Slot = Torn | Whole(rec: Record)

  datatype WriterPc =
    | WIdle
    | Counted(rec: Record)   // get_counter done
    | Tested(rec: Record)    // cbIsFull loaded `start` and answered no
    | Filling(rec: Record)   // inside memcpy
    | Stored(rec: Record)    // memcpy and barrier done

  // `endAbs` is history: how many records had been published when `end` was loaded.
  datatype ReaderPc =
    | RIdle
    | Loaded(end: nat, size: nat, endAbs: nat)
    | Copy1(k: nat, first: nat, second: nat, endAbs: nat)
    | Copy2(k: nat, second: nat, endAbs: nat)

  datatype Ring = Ring(
    n: nat,
    slots: seq<Slot>,
    start: nat,
    end: nat,
    countEvent: nat,
    writer: WriterPc,
    reader: ReaderPc,
    // history, read by no step:
    accepted: seq<Record>,   // records published by cbWrite, in order
    startAbs: nat,           // records given back by the reader
    outcomes: seq<bool>,     // per event: accepted or dropped
    output: seq<Slot>)       // the reader's buffers, one after the other

  datatype Action =
    | Count(data: int) | Test | BeginStore | EndStore | Publish
    | LoadEnd(size: nat) | Split | CopyOne | Release

  predicate Shape(r: Ring) {
    && r.n > 0 && |r.slots| == r.n && r.start < r.n && r.end < r.n
    && (r.reader.Loaded? ==> r.reader.end < r.n)
    && (r.reader.Copy1? ==> r.reader.k <= r.reader.first && r.start + r.reader.first <= r.n)
    && (r.reader.Copy2? ==> r.reader.k <= r.reader.second && r.start + r.reader.second <= r.n)
  }

  predicate Enabled(r: Ring, a: Action) {
    && Shape(r)
    && match a
       case Count(_) => r.writer == WIdle
       case Test => r.writer.Counted?
       case BeginStore => r.writer.Tested?
       case EndStore => r.writer.Filling?
       case Publish => r.writer.Stored?
       case LoadEnd(_) => r.reader == RIdle
       case Split => r.reader.Loaded?
       case CopyOne => (r.reader.Copy1? && r.reader.k < r.reader.first)
                       || (r.reader.Copy2? && r.reader.k < r.reader.second)
       case Release => (r.reader.Copy1? && r.reader.k == r.reader.first)
                       || (r.reader.Copy2? && r.reader.k == r.reader.second)
  }

  function Apply(r: Ring, a: Action): Ring
    requires Enabled(r, a)
  {
    match a
    case Count(d) =>
      r.(countEvent := r.countEvent + 1, writer := Counted(Record(r.countEvent + 1, d)))
    case Test =>
      if Step(r.end, 1, r.n) == r.start
      then r.(writer := WIdle, outcomes := r.outcomes + [false])
      else r.(writer := Tested(r.writer.rec))
    case BeginStore =>
      r.(slots := r.slots[r.end := Torn], writer := Filling(r.writer.rec))
    case EndStore =>
      r.(slots := r.slots[r.end := Whole(r.writer.rec)], writer := Stored(r.writer.rec))
    case Publish =>
      r.(end := Step(r.end, 1, r.n), writer := WIdle,
         accepted := r.accepted + [r.writer.rec], outcomes := r.outcomes + [true])
    case LoadEnd(size) =>
      r.(reader := Loaded(r.end, size, |r.accepted|))
    case Split =>
      var (first, second) := Segments(r.start, r.reader.end, r.n, r.reader.size);
      if r.reader.end == r.start then r.(reader := RIdle)
      else r.(reader := Copy1(0, first, second, r.reader.endAbs))
    case CopyOne =>
      r.(output := r.output + [r.slots[r.start + r.reader.k]],
         reader := r.reader.(k := r.reader.k + 1))
    case Release =>
      r.(start := Step(r.start, r.reader.k, r.n), startAbs := r.startAbs + r.reader.k,
         reader := if r.reader.Copy1? && r.reader.second > 0
                   then Copy2(0, r.reader.second, r.reader.endAbs) else RIdle)
  }

  // ----- invariant

  /** Records the reader has copied but not yet given back. */
  function Copied(r: Ring): nat {
    if r.reader.Copy1? || r.reader.Copy2? then r.reader.k else 0
  }

  /** Slots from `start` on that the reader's present copy still covers. */
  function Covered(r: Ring): nat {
    if r.reader.Copy1? then r.reader.first else if r.reader.Copy2? then r.reader.second else 0
  }

  predicate WriterInv(r: Ring)
    requires Shape(r)
  {
    && (r.writer.WIdle? ==> r.countEvent == |r.outcomes|)
    && (!r.writer.WIdle? ==> r.countEvent == |r.outcomes| + 1 == r.writer.rec.count)
    && (r.writer.Tested? || r.writer.Filling? || r.writer.Stored? ==>
          |r.accepted| - r.startAbs + 1 < r.n)
    && (r.writer.Stored? ==> r.slots[r.end] == Whole(r.writer.rec))
  }

  predicate ReaderInv(r: Ring)
    requires Shape(r)
  {
    && (!r.reader.RIdle? ==> r.startAbs <= r.reader.endAbs <= |r.accepted|)
    && (r.reader.Loaded? ==> r.reader.end == SlotOf(r.reader.endAbs, r.n))
    && (r.reader.Copy1? ==> r.startAbs + r.reader.first + r.reader.second <= r.reader.endAbs
                            && (r.reader.second > 0 ==> r.start + r.reader.first == r.n)
                            && r.reader.second <= r.n)
    && (r.reader.Copy2? ==> r.startAbs + r.reader.second <= r.reader.endAbs)
  }

  /** Every record from `from` on is whole in its slot. */
  predicate SlotsOk(slots: seq<Slot>, accepted: seq<Record>, from: nat, n: nat)
    requires |slots| == n > 0
  {
    forall i {:trigger SlotOf(i, n)} :: from <= i < |accepted| ==> slots[SlotOf(i, n)] == Whole(accepted[i])
  }

  predicate Inv(r: Ring) {
    && Shape(r)
    && r.startAbs <= |r.accepted| < r.startAbs + r.n
    && r.start == SlotOf(r.startAbs, r.n) && r.end == SlotOf(|r.accepted|, r.n)
    && SlotsOk(r.slots, r.accepted, r.startAbs, r.n)
    && WriterInv(r) && ReaderInv(r)
    && IsCopyOf(r.output, r.accepted, r.startAbs + Copied(r))
    && CountsAgree(r.accepted, r.outcomes)
  }

  /** `out` is the first `k` records of `acc`, none of them torn. */
  predicate IsCopyOf(out: seq<Slot>, acc: seq<Record>, k: nat) {
    |out| == k <= |acc| && forall i :: 0 <= i < k ==> out[i] == Whole(acc[i])
  }

  /** The `count_event` values of the events that were accepted. */
  function AcceptedCounts(outcomes: seq<bool>): seq<nat> {
    if outcomes == [] then []
    else
      var rest := outcomes[..|outcomes| - 1];
      AcceptedCounts(rest) + if outcomes[|outcomes| - 1] then [|outcomes|] else []
  }

  predicate CountsAgree(acc: seq<Record>, outcomes: seq<bool>) {
    && |AcceptedCounts(outcomes)| == |acc|
    && forall i :: 0 <= i < |acc| ==> acc[i].count == AcceptedCounts(outcomes)[i]
  }

  predicate Init(r: Ring) {
    && Shape(r) && r.start == 0 && r.end == 0 && r.countEvent == 0
    && r.writer == WIdle && r.reader == RIdle
    && r.accepted == [] && r.startAbs == 0 && r.outcomes == [] && r.output == []
  }

  lemma InitInv(r: Ring)
    requires Init(r)
    ensures Inv(r)
  {}

  /** The slot the writer stores into is never one that the reader is copying from, nor any
      slot that holds a record still to be read. */
  lemma NoOverwriteWhileCopying(r: Ring)
    requires Inv(r) && (r.writer.Tested? || r.writer.Filling? || r.writer.Stored?)
    ensures !(r.start <= r.end < r.start + Covered(r))
    ensures forall i {:trigger SlotOf(i, r.n)} :: r.startAbs <= i < |r.accepted| ==> SlotOf(i, r.n) != r.end
  {
    forall i {:trigger SlotOf(i, r.n)} | r.startAbs <= i < |r.accepted| ensures SlotOf(i, r.n) != r.end {
      DistinctSlots(i, |r.accepted|, r.n);
    }
    if r.start <= r.end < r.start + Covered(r) {
      var i := r.startAbs + (r.end - r.start);
      Advance(r.startAbs, r.end - r.start, r.n);
      assert false;
    }
  }

  lemma AcceptedCountsSnoc(outcomes: seq<bool>, b: bool)
    ensures AcceptedCounts(outcomes + [b])
            == AcceptedCounts(outcomes) + if b then [|outcomes| + 1] else []
  {
    assert (outcomes + [b])[..|outcomes|] == outcomes;
  }

  lemma CountInv(r: Ring, a: Action)
    requires Inv(r) && Enabled(r, a) && a.Count?
    ensures Inv(Apply(r, a))
  {
    hide IsCopyOf, CountsAgree, SlotOf, SlotsOk;
  }

  lemma TestInv(r: Ring)
    requires Inv(r) && Enabled(r, Test)
    ensures Inv(Apply(r, Test))
  {
    hide IsCopyOf, AcceptedCounts, SlotOf, SlotsOk;
    Advance(|r.accepted|, 1, r.n);
    AcceptedCountsSnoc(r.outcomes, false);
    if Step(r.end, 1, r.n) != r.start && |r.accepted| + 1 == r.startAbs + r.n {
      Advance(r.startAbs, r.n, r.n);
      assert false;
    }
  }

  /** A record is dropped if and only if, with the `start` that cbWrite loads, no slot is free: all but
      one hold records not yet given back. */
  lemma DroppedIffFull(r: Ring)
    requires Inv(r) && Enabled(r, Test)
    ensures Apply(r, Test).outcomes == r.outcomes + [false] <==> |r.accepted| - r.startAbs == r.n - 1
    ensures Apply(r, Test).writer.Tested? <==> |r.accepted| - r.startAbs < r.n - 1
  {
    hide IsCopyOf, CountsAgree, SlotsOk, SlotOf, WriterInv, ReaderInv;
    Advance(|r.accepted|, 1, r.n);
    if |r.accepted| + 1 == r.startAbs + r.n {
      Advance(r.startAbs, r.n, r.n);
    } else {
      DistinctSlots(r.startAbs, |r.accepted| + 1, r.n);
    }
  }

  /** A read takes as many records as were published when it loaded `end`, up to its limit. */
  lemma ReadTakes(r: Ring)
    requires Inv(r) && Enabled(r, Split)
    ensures var r', published := Apply(r, Split), r.reader.endAbs - r.startAbs;
            if published == 0 then r'.reader == RIdle
            else r'.reader.Copy1? && r'.reader.first + r'.reader.second == Min(r.reader.size, published)
  {
    hide IsCopyOf, CountsAgree, SlotsOk, WriterInv;
    LoadedDistance(r);
    hide SlotOf, Inv;
  }

  lemma StoreInv(r: Ring, a: Action)
    requires Inv(r) && Enabled(r, a) && (a.BeginStore? || a.EndStore?)
    ensures Inv(Apply(r, a))
  {
    hide IsCopyOf, CountsAgree;
    NoOverwriteWhileCopying(r);
  }

  lemma PublishInv(r: Ring)
    requires Inv(r) && Enabled(r, Publish)
    ensures Inv(Apply(r, Publish))
  {
    hide AcceptedCounts, SlotsOk, SlotOf;
    Advance(|r.accepted|, 1, r.n);
    AcceptedCountsSnoc(r.outcomes, true);
    SlotsMore(r.slots, r.accepted, r.startAbs, r.n, r.writer.rec);
  }

  /** The record stored in the next slot. */
  lemma SlotsMore(slots: seq<Slot>, accepted: seq<Record>, from: nat, n: nat, rec: Record)
    requires |slots| == n > 0 && SlotsOk(slots, accepted, from, n) && slots[SlotOf(|accepted|, n)] == Whole(rec)
    ensures SlotsOk(slots, accepted + [rec], from, n)
  {
    hide SlotOf;
  }

  lemma LoadedDistance(r: Ring)
    requires Inv(r) && r.reader.Loaded?
    ensures Filled(r.start, r.reader.end, r.n) == r.reader.endAbs - r.startAbs
  {
    Advance(r.startAbs, r.reader.endAbs - r.startAbs, r.n);
  }

  lemma SplitInv(r: Ring)
    requires Inv(r) && Enabled(r, Split)
    ensures Inv(Apply(r, Split))
  {
    hide CountsAgree, IsCopyOf, SlotsOk;
    LoadedDistance(r);
    var r' := Apply(r, Split);
    assert r'.(reader := r.reader) == r;
    assert Copied(r') == 0;
    assert ReaderInv(r');
  }

  /** The slot copied next holds the record whose turn it is. */
  lemma SlotOfCopy(r: Ring)
    requires Inv(r) && Enabled(r, CopyOne)
    ensures var i := r.startAbs + r.reader.k; i < |r.accepted| && r.slots[r.start + r.reader.k] == Whole(r.accepted[i])
  {
    hide CountsAgree, IsCopyOf, WriterInv;
    var i := r.startAbs + r.reader.k;
    Advance(r.startAbs, r.reader.k, r.n);
    assert r.slots[SlotOf(i, r.n)] == Whole(r.accepted[i]);
  }

  lemma CopyOneInv(r: Ring)
    requires Inv(r) && Enabled(r, CopyOne)
    ensures Inv(Apply(r, CopyOne))
  {
    SlotOfCopy(r);
    hide CountsAgree, SlotsOk, SlotOf, WriterInv;
  }

  /** Giving slots back asks less of them. */
  lemma SlotsLater(slots: seq<Slot>, accepted: seq<Record>, from: nat, from': nat, n: nat)
    requires |slots| == n > 0 && SlotsOk(slots, accepted, from, n) && from <= from'
    ensures SlotsOk(slots, accepted, from', n)
  {
    hide SlotOf;
  }

  /** Where the reader stands after it has given its copy back. */
  lemma ReleaseReader(r: Ring)
    requires Shape(r) && ReaderInv(r) && Enabled(r, Release) && r.start == SlotOf(r.startAbs, r.n)
    ensures var r' := Apply(r, Release);
            && Shape(r') && ReaderInv(r') && r'.start == SlotOf(r'.startAbs, r.n)
            && r'.startAbs + Copied(r') == r.startAbs + Copied(r) && r.startAbs <= r'.startAbs <= |r.accepted|
            && r' == r.(start := r'.start, startAbs := r'.startAbs, reader := r'.reader)
  {
    hide SlotOf;
    Advance(r.startAbs, r.reader.k, r.n);
  }

  lemma ReleaseInv(r: Ring)
    requires Inv(r) && Enabled(r, Release)
    ensures Inv(Apply(r, Release))
  {
    ReleaseReader(r);
    hide CountsAgree, IsCopyOf, SlotsOk, SlotOf, Enabled, Apply, ReaderInv, Copied;
    SlotsLater(r.slots, r.accepted, r.startAbs, Apply(r, Release).startAbs, r.n);
  }

  lemma StepInv(r: Ring, a: Action)
    requires Inv(r) && Enabled(r, a)
    ensures Inv(Apply(r, a))
  {
    match a
    case Publish => PublishInv(r);
    case LoadEnd(_) =>
    case Split => SplitInv(r);
    case CopyOne => CopyOneInv(r);
    case Release => ReleaseInv(r);
    case Count(_) => CountInv(r, a);
    case Test => TestInv(r);
    case _ => StoreInv(r, a);
  }

  // ----- whole runs

  ghost predicate IsRun(run: seq<Ring>, acts: seq<Action>) {
    && |run| == |acts| + 1
    && Init(run[0])
    && forall i :: 0 <= i < |acts| ==> Enabled(run[i], acts[i]) && run[i + 1] == Apply(run[i], acts[i])
  }

  lemma {:induction false} RunInv(run: seq<Ring>, acts: seq<Action>, i: nat)
    requires IsRun(run, acts) && i < |run|
    ensures Inv(run[i])
  {
    if i == 0 {
      InitInv(run[0]);
    } else {
      RunInv(run, acts, i - 1);
      StepInv(run[i - 1], acts[i - 1]);
    }
  }

  /** In every interleaving, what the reader has copied is a prefix of what the writer has
      published: nothing lost, repeated, reordered or torn. */
  lemma OutputIsPrefix(run: seq<Ring>, acts: seq<Action>, i: nat)
    requires IsRun(run, acts) && i < |run|
    ensures IsCopyOf(run[i].output, run[i].accepted, |run[i].output|)
    ensures run[i].writer.Filling? ==>
              !(run[i].start <= run[i].end < run[i].start + Covered(run[i]))
  {
    RunInv(run, acts, i);
    if run[i].writer.Filling? { NoOverwriteWhileCopying(run[i]); }
  }

  /** Dropped events among those numbered above `lo` and up to `hi`. */
  function Drops(outcomes: seq<bool>, lo: nat, hi: nat): nat
    requires lo <= hi <= |outcomes|
  {
    if lo == hi then 0 else Drops(outcomes, lo, hi - 1) + if outcomes[hi - 1] then 0 else 1
  }

  /** No event numbered above `lo` and up to `hi` was accepted. */
  predicate NoneAccepted(outcomes: seq<bool>, lo: nat, hi: nat)
    requires hi <= |outcomes|
  {
    forall e :: lo <= e < hi ==> !outcomes[e]
  }

  lemma {:induction false} CountsInOrder(outcomes: seq<bool>, i: nat)
    requires i < |AcceptedCounts(outcomes)|
    ensures var c := AcceptedCounts(outcomes);
            && 0 < c[i] <= |outcomes| && outcomes[c[i] - 1]
            && (i + 1 < |c| ==> c[i] < c[i + 1] <= |outcomes|)
            && NoneAccepted(outcomes, c[i], if i + 1 < |c| then c[i + 1] - 1 else |outcomes|)
  {
    var rest := outcomes[..|outcomes| - 1];
    if i < |AcceptedCounts(rest)| {
      CountsInOrder(rest, i);
    }
  }

  lemma {:induction false} AllDropped(outcomes: seq<bool>, lo: nat, hi: nat)
    requires lo <= hi <= |outcomes|
    requires NoneAccepted(outcomes, lo, hi)
    ensures Drops(outcomes, lo, hi) == hi - lo
  {
    if lo < hi { AllDropped(outcomes, lo, hi - 1); }
  }

  /** The gap between the `count_event` of two neighbouring records in the trace is exactly the
      number of records that were dropped between them. */
  lemma GapsCountDrops(run: seq<Ring>, acts: seq<Action>, i: nat, k: nat)
    requires IsRun(run, acts) && i < |run| && k + 1 < |run[i].output|
    ensures var r := run[i];
            && r.output[k].Whole? && r.output[k + 1].Whole?
            && r.output[k].rec.count < r.output[k + 1].rec.count <= |r.outcomes|
            && r.output[k + 1].rec.count - r.output[k].rec.count - 1
               == Drops(r.outcomes, r.output[k].rec.count, r.output[k + 1].rec.count - 1)
  {
    RunInv(run, acts, i);
    var r := run[i];
    CountsInOrder(r.outcomes, k);
    var lo, hi := r.accepted[k].count, r.accepted[k + 1].count;
    AllDropped(r.outcomes, lo, hi - 1);
  }
}
