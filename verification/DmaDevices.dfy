/**
 The DMA-engine channel allocator: devices, their channels, and the reference counts that public
 and exclusive users take.  Every operation runs under dma_list_mutex, so one operation is one
 step.  Module DmaEngine holds the operations as methods.
 */
module DmaDevices {

  datatype Option<+T> = None | Some(value: T)

  /** DMA_MEMCPY */
  const MEMCPY: nat := 0

  /** The operation types with an entry in channel_table, in order: all but DMA_INTERRUPT,
      DMA_PRIVATE and DMA_SLAVE. */
  const TABLE_CAPS: seq<nat> := [0, 1, 2, 3, 4, 5, 7, 9, 11, 12]

  datatype Chan = Chan(clients: nat, tableCount: nat)

  /** `refs` counts the references that the engine holds on the driver's module.
      `born` says that the driver registered the device as private. */
  datatype Device = Device(caps: set<nat>, isPrivate: bool, privateCnt: int, born: bool,
                           chans: seq<Chan>, refs: int)

  /** A channel: device number and index within the device. */
  datatype Id = Id(dev: nat, chan: nat)

  // What the driver answers when a first reference is taken: its module is gone, or allocating
  // channel resources fails, or all is well.
  datatype Grab = NoModule | NoResources | Granted

  datatype Outcome = Ok | NoDevice | Failed

  function Max(a: nat, b: nat): nat { if a >= b then a else b }

  function SetClients(d: Device, c: nat, n: nat, refs: int): Device
    requires c < |d.chans|
  {
    d.(chans := d.chans[c := d.chans[c].(clients := n)], refs := refs)
  }

  // ----- dma_chan_get, with balance_ref_count, and dma_chan_put

  function ChanGet(d: Device, c: nat, refCount: nat, g: Grab): (Device, Outcome)
    requires c < |d.chans|
  {
    var n := d.chans[c].clients;
    if n > 0 then (SetClients(d, c, n + 1, d.refs + 1), Ok)
    else match g
      case NoModule => (d, NoDevice)
      case NoResources => (d, Failed)
      case Granted =>
        var m := if d.isPrivate then 1 else Max(1, refCount);
        (SetClients(d, c, m, d.refs + m), Ok)
  }

  function ChanPut(d: Device, c: nat): Device
    requires c < |d.chans|
  {
    var n := d.chans[c].clients;
    if n == 0 then d else SetClients(d, c, n - 1, d.refs - 1)
  }

  /** A reference on every channel from `c` on; stops when the module turns out to be gone. */
  function GetFrom(d: Device, c: nat, refCount: nat, env: nat -> Grab): (r: (Device, bool))
    requires c <= |d.chans|
    decreases |d.chans| - c
  {
    if c == |d.chans| then (d, true)
    else
      var (d1, o) := ChanGet(d, c, refCount, env(c));
      if o == NoDevice then (d1, false) else GetFrom(d1, c + 1, refCount, env)
  }

  function PutFrom(d: Device, c: nat): Device
    requires c <= |d.chans|
    decreases |d.chans| - c
  {
    if c == |d.chans| then d else PutFrom(ChanPut(d, c), c + 1)
  }

  // ----- the invariant of one device

  function Sum(s: seq<Chan>): nat {
    if s == [] then 0 else Sum(s[..|s| - 1]) + s[|s| - 1].clients
  }

  lemma {:induction false} SumUpdate(s: seq<Chan>, c: nat, n: nat)
    requires c < |s|
    ensures Sum(s[c := s[c].(clients := n)]) == Sum(s) - s[c].clients + n
  {
    var t := s[c := s[c].(clients := n)];
    if c == |s| - 1 {
      assert t[..|t| - 1] == s[..|s| - 1];
    } else {
      SumUpdate(s[..|s| - 1], c, n);
      assert t[..|t| - 1] == s[..|s| - 1][c := s[c].(clients := n)];
    }
  }

  lemma {:induction false} SumZero(s: seq<Chan>)
    ensures Sum(s) == 0 <==> forall i :: 0 <= i < |s| ==> s[i].clients == 0
  {
    if s != [] {
      SumZero(s[..|s| - 1]);
      assert forall i :: 0 <= i < |s| - 1 ==> s[..|s| - 1][i] == s[i];
    }
  }

  /** Channels below `k` have no client or `done` of them, the others none or `todo`. */
  predicate Levelled(s: seq<Chan>, k: nat, done: nat, todo: nat) {
    forall i :: 0 <= i < |s| ==> s[i].clients == 0 || s[i].clients == (if i < k then done else todo)
  }

  /** Module references equal client counts; a private device counts its held channels, plus one
      if it was registered private; DMA_PRIVATE is set exactly while that count is positive. */
  predicate Counted(d: Device) {
    && d.refs == Sum(d.chans)
    && (d.isPrivate <==> d.privateCnt > 0)
    && (d.isPrivate ==> d.privateCnt == Sum(d.chans) + (if d.born then 1 else 0))
    && (d.isPrivate ==> forall i :: 0 <= i < |d.chans| ==> d.chans[i].clients <= 1)
    && (!d.isPrivate ==> d.privateCnt == 0 && !d.born)
  }

  /** Every channel of a listed public device has no client or one per public user. */
  predicate DeviceOk(d: Device, listed: bool, refCount: nat) {
    && Counted(d)
    && (listed && !d.isPrivate ==> Levelled(d.chans, 0, 0, refCount))
  }

  /** A table entry may name the channel. */
  predicate Public(d: Device, c: nat) {
    !d.isPrivate && c < |d.chans| && d.chans[c].clients > 0
  }

  lemma GetOneOk(d: Device, c: nat, refCount: nat, g: Grab)
    requires c < |d.chans| && !d.isPrivate && Counted(d) && refCount > 0
    requires Levelled(d.chans, c, refCount, refCount - 1)
    ensures var (d1, o) := ChanGet(d, c, refCount, g);
            && Counted(d1) && !d1.isPrivate && |d1.chans| == |d.chans|
            && (o != NoDevice ==> Levelled(d1.chans, c + 1, refCount, refCount - 1))
            && (forall i :: Public(d, i) ==> Public(d1, i))
  {
    var n := d.chans[c].clients;
    SumUpdate(d.chans, c, n + 1);
    SumUpdate(d.chans, c, Max(1, refCount));
  }

  lemma {:induction false} GetFromOk(d: Device, c: nat, refCount: nat, env: nat -> Grab)
    requires c <= |d.chans| && !d.isPrivate && Counted(d) && refCount > 0
    requires Levelled(d.chans, c, refCount, refCount - 1)
    ensures var (r, all) := GetFrom(d, c, refCount, env);
            && Counted(r) && !r.isPrivate && |r.chans| == |d.chans|
            && (all ==> Levelled(r.chans, 0, 0, refCount))
            && (forall i :: Public(d, i) ==> Public(r, i))
    decreases |d.chans| - c
  {
    if c < |d.chans| {
      GetOneOk(d, c, refCount, env(c));
      var (d1, o) := ChanGet(d, c, refCount, env(c));
      if o != NoDevice { GetFromOk(d1, c + 1, refCount, env); }
    }
  }

  lemma PutOneOk(d: Device, c: nat, refCount: nat)
    requires c < |d.chans| && !d.isPrivate && Counted(d)
    requires Levelled(d.chans, c, refCount, refCount + 1)
    ensures var d1 := ChanPut(d, c);
            && Counted(d1) && !d1.isPrivate && |d1.chans| == |d.chans|
            && Levelled(d1.chans, c + 1, refCount, refCount + 1)
            && (refCount > 0 ==> forall i :: Public(d, i) ==> Public(d1, i))
  {
    if d.chans[c].clients > 0 { SumUpdate(d.chans, c, d.chans[c].clients - 1); }
  }

  lemma {:induction false} PutFromOk(d: Device, c: nat, refCount: nat)
    requires c <= |d.chans| && !d.isPrivate && Counted(d)
    requires Levelled(d.chans, c, refCount, refCount + 1)
    ensures var r := PutFrom(d, c);
            && Counted(r) && !r.isPrivate && |r.chans| == |d.chans|
            && Levelled(r.chans, 0, 0, refCount)
            && (refCount > 0 ==> forall i :: Public(d, i) ==> Public(r, i))
    decreases |d.chans| - c
  {
    if c < |d.chans| {
      PutOneOk(d, c, refCount);
      PutFromOk(ChanPut(d, c), c + 1, refCount);
    }
  }

  // ----- private_candidate and the exclusive path for one device

  function FirstIdle(d: Device, c: nat, fn: nat -> bool): (r: Option<nat>)
    requires c <= |d.chans|
    ensures r.Some? ==> c <= r.value < |d.chans| && d.chans[r.value].clients == 0 && fn(r.value)
    ensures r.None? ==> forall i :: c <= i < |d.chans| ==> d.chans[i].clients > 0 || !fn(i)
    decreases |d.chans| - c
  {
    if c == |d.chans| then None
    else if d.chans[c].clients == 0 && fn(c) then Some(c)
    else FirstIdle(d, c + 1, fn)
  }

  predicate AllIdle(d: Device) {
    forall i :: 0 <= i < |d.chans| ==> d.chans[i].clients == 0
  }

  function Candidate(d: Device, mask: set<nat>, fn: nat -> bool): Option<nat> {
    if !(mask <= d.caps) then None
    else if |d.chans| > 1 && !d.isPrivate && !AllIdle(d) then None
    else FirstIdle(d, 0, fn)
  }

  /** A channel that may be handed out exclusively: its device can do all that is asked, the caller's
      filter accepts it, nobody uses it, and no channel of a public device with several is in use. */
  predicate Available(d: Device, mask: set<nat>, fn: nat -> bool, c: nat) {
    && (forall cap :: cap in mask ==> cap in d.caps)
    && c < |d.chans| && d.chans[c].clients == 0 && fn(c)
    && (d.isPrivate || |d.chans| == 1 || forall i :: 0 <= i < |d.chans| ==> d.chans[i].clients == 0)
  }

  /** The candidate is the first available channel. */
  lemma CandidateExact(d: Device, mask: set<nat>, fn: nat -> bool)
    ensures match Candidate(d, mask, fn)
            case None => forall c: nat :: !Available(d, mask, fn, c)
            case Some(c) => Available(d, mask, fn, c) && forall i: nat :: i < c ==> !Available(d, mask, fn, i)
  {
    FirstIsFirst(d, 0, fn);
  }

  lemma {:induction false} FirstIsFirst(d: Device, c: nat, fn: nat -> bool)
    requires c <= |d.chans|
    ensures FirstIdle(d, c, fn).Some? ==>
              forall i :: c <= i < FirstIdle(d, c, fn).value ==> d.chans[i].clients > 0 || !fn(i)
    decreases |d.chans| - c
  {
    if c < |d.chans| { FirstIsFirst(d, c + 1, fn); }
  }

  /** One device of the loop of __dma_request_channel, once it has a candidate channel. */
  function TryExclusive(d: Device, c: nat, refCount: nat, g: Grab): (Device, Outcome)
    requires c < |d.chans|
  {
    var (d1, o) := ChanGet(d.(isPrivate := true, privateCnt := d.privateCnt + 1), c, refCount, g);
    if o == Ok then (d1, Ok)
    else (d1.(privateCnt := d1.privateCnt - 1, isPrivate := d1.isPrivate && d1.privateCnt - 1 != 0), o)
  }

  function Release(d: Device, c: nat): Device
    requires c < |d.chans|
  {
    var d1 := ChanPut(d, c);
    d1.(privateCnt := d1.privateCnt - 1, isPrivate := d1.isPrivate && d1.privateCnt - 1 != 0)
  }

  /** Exclusively held: the one reference on a channel of a private device. */
  predicate Exclusive(d: Device, c: nat) {
    d.isPrivate && c < |d.chans| && d.chans[c].clients == 1
  }

  lemma TryExclusiveOk(d: Device, mask: set<nat>, fn: nat -> bool, c: nat, refCount: nat, g: Grab, listed: bool)
    requires DeviceOk(d, listed, refCount) && Candidate(d, mask, fn) == Some(c)
    ensures c < |d.chans|
    ensures var (r, o) := TryExclusive(d, c, refCount, g);
            && DeviceOk(r, listed, refCount) && |r.chans| == |d.chans|
            && (forall i :: !Public(d, i))
            && (o == Ok ==> Exclusive(r, c) && !Exclusive(d, c)
                            && forall i :: i != c ==> (Exclusive(r, i) <==> Exclusive(d, i)))
            && (o != Ok ==> r == d)
  {
    SumUpdate(d.chans, c, 1);
    SumZero(d.chans);
    if !d.isPrivate {
      assert forall i :: 0 <= i < |d.chans| ==> d.chans[i].clients == 0;
    }
  }

  lemma ReleaseOk(d: Device, c: nat, refCount: nat, listed: bool)
    requires DeviceOk(d, listed, refCount) && Exclusive(d, c)
    ensures var r := Release(d, c);
            && DeviceOk(r, listed, refCount) && |r.chans| == |d.chans|
            && !Exclusive(r, c)
            && (forall i :: i != c ==> (Exclusive(r, i) <==> Exclusive(d, i)))
  {
    SumUpdate(d.chans, c, 0);
    var r := Release(d, c);
    SumZero(r.chans);
    assert r.privateCnt == Sum(r.chans) + (if d.born then 1 else 0);
    forall i: nat | i != c ensures Exclusive(r, i) <==> Exclusive(d, i) {
      if i < |d.chans| { assert r.chans[i].clients == d.chans[i].clients; }
    }
  }
}
