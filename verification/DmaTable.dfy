/**
 channel_table and its rebalancing: which channel each CPU uses for each operation type.
 The table is kept row by row, one row per operation type of TABLE_CAPS, one column per online CPU.
 */
module DmaTable {
  import opened DmaDevices

  predicate Listed(devs: seq<Device>, list: seq<nat>) {
    forall i :: 0 <= i < |list| ==> list[i] < |devs|
  }

  predicate Valid(devs: seq<Device>, id: Id) {
    id.dev < |devs| && id.chan < |devs[id.dev].chans|
  }

  function CountOf(devs: seq<Device>, id: Id): nat
    requires Valid(devs, id)
  {
    devs[id.dev].chans[id.chan].tableCount
  }

  /** The channels of one device, from `c` on, that have clients. */
  function BusyFrom(d: Device, dev: nat, c: nat): seq<Id>
    requires c <= |d.chans|
    decreases |d.chans| - c
  {
    if c == |d.chans| then []
    else (if d.chans[c].clients > 0 then [Id(dev, c)] else []) + BusyFrom(d, dev, c + 1)
  }

  predicate Serves(d: Device, cap: nat) { cap in d.caps && !d.isPrivate }

  /** The channels that nth_chan looks at, in order. */
  function Eligible(devs: seq<Device>, list: seq<nat>, cap: nat): seq<Id>
    requires Listed(devs, list)
  {
    if list == [] then []
    else
      var d := devs[list[0]];
      (if Serves(d, cap) then BusyFrom(d, list[0], 0) else []) + Eligible(devs, list[1..], cap)
  }

  predicate AllValid(devs: seq<Device>, ids: seq<Id>) {
    forall i :: 0 <= i < |ids| ==> Valid(devs, ids[i])
  }

  /** The first of the least used channels of `ids`. */
  function LeastUsed(devs: seq<Device>, ids: seq<Id>): (r: Id)
    requires ids != [] && AllValid(devs, ids)
    ensures exists i :: 0 <= i < |ids| && ids[i] == r
    ensures forall i :: 0 <= i < |ids| ==> CountOf(devs, r) <= CountOf(devs, ids[i])
  {
    var last := ids[|ids| - 1];
    if |ids| == 1 then last
    else
      var m := LeastUsed(devs, ids[..|ids| - 1]);
      assert forall i :: 0 <= i < |ids| - 1 ==> ids[..|ids| - 1][i] == ids[i];
      if CountOf(devs, last) < CountOf(devs, m) then last else m
  }

  /** nth_chan, before it counts its choice. */
  function NthChan(devs: seq<Device>, ids: seq<Id>, n: int): Option<Id>
    requires AllValid(devs, ids)
  {
    if 0 <= n < |ids| then Some(ids[n])
    else if ids == [] then None
    else Some(LeastUsed(devs, ids))
  }

  function Bump(devs: seq<Device>, id: Id): (r: seq<Device>)
    requires Valid(devs, id)
    ensures |r| == |devs|
  {
    var d := devs[id.dev];
    var x := d.chans[id.chan];
    devs[id.dev := d.(chans := d.chans[id.chan := x.(tableCount := x.tableCount + 1)])]
  }

  /** Only table counts differ. */
  predicate SameChan(x: Chan, y: Chan) { x.clients == y.clients }

  predicate SameDevice(a: Device, b: Device) {
    && b == a.(chans := b.chans) && |a.chans| == |b.chans|
    && forall i :: 0 <= i < |a.chans| ==> SameChan(a.chans[i], b.chans[i])
  }

  predicate Same(a: seq<Device>, b: seq<Device>) {
    |a| == |b| && forall i :: 0 <= i < |a| ==> SameDevice(a[i], b[i])
  }

  lemma BumpSame(devs: seq<Device>, id: Id)
    requires Valid(devs, id)
    ensures Same(devs, Bump(devs, id))
    ensures CountOf(Bump(devs, id), id) == CountOf(devs, id) + 1
    ensures forall x :: Valid(devs, x) && x != id ==> CountOf(Bump(devs, id), x) == CountOf(devs, x)
  {}

  lemma SameTransitive(a: seq<Device>, b: seq<Device>, c: seq<Device>)
    requires Same(a, b) && Same(b, c)
    ensures Same(a, c)
  {
    forall i | 0 <= i < |a| ensures SameDevice(a[i], c[i]) {
      assert SameDevice(a[i], b[i]) && SameDevice(b[i], c[i]);
      forall j | 0 <= j < |a[i].chans| ensures SameChan(a[i].chans[j], c[i].chans[j]) {
        assert SameChan(a[i].chans[j], b[i].chans[j]) && SameChan(b[i].chans[j], c[i].chans[j]);
      }
    }
  }

  lemma {:induction false} SameBusy(a: Device, b: Device, dev: nat, c: nat)
    requires SameDevice(a, b) && c <= |a.chans|
    ensures BusyFrom(a, dev, c) == BusyFrom(b, dev, c)
    decreases |a.chans| - c
  {
    if c < |a.chans| {
      assert SameChan(a.chans[c], b.chans[c]);
      SameBusy(a, b, dev, c + 1);
    }
  }

  lemma {:induction false} SameEligible(a: seq<Device>, b: seq<Device>, list: seq<nat>, cap: nat)
    requires Same(a, b) && Listed(a, list)
    ensures Eligible(a, list, cap) == Eligible(b, list, cap)
  {
    if list != [] {
      SameBusy(a[list[0]], b[list[0]], list[0], 0);
      SameEligible(a, b, list[1..], cap);
    }
  }

  // ----- what the eligible channels are

  predicate PublicId(devs: seq<Device>, id: Id) {
    Valid(devs, id) && Public(devs[id.dev], id.chan)
  }

  lemma {:induction false} BusyArePublic(d: Device, dev: nat, c: nat)
    requires c <= |d.chans| && !d.isPrivate
    ensures forall i :: 0 <= i < |BusyFrom(d, dev, c)| ==>
              var id := BusyFrom(d, dev, c)[i]; id.dev == dev && c <= id.chan && Public(d, id.chan)
    ensures forall i, j :: 0 <= i < j < |BusyFrom(d, dev, c)| ==>
              BusyFrom(d, dev, c)[i] != BusyFrom(d, dev, c)[j]
    decreases |d.chans| - c
  {
    if c < |d.chans| { BusyArePublic(d, dev, c + 1); }
  }

  predicate Distinct<T(==)>(s: seq<T>) {
    forall i, j :: 0 <= i < j < |s| ==> s[i] != s[j]
  }

  /** Eligible channels are public channels of listed devices, each listed once. */
  lemma {:induction false} EligibleArePublic(devs: seq<Device>, list: seq<nat>, cap: nat)
    requires Listed(devs, list) && Distinct(list)
    ensures AllValid(devs, Eligible(devs, list, cap))
    ensures forall i :: 0 <= i < |Eligible(devs, list, cap)| ==>
              PublicId(devs, Eligible(devs, list, cap)[i]) && Eligible(devs, list, cap)[i].dev in list
    ensures Distinct(Eligible(devs, list, cap))
  {
    if list != [] {
      EligibleArePublic(devs, list[1..], cap);
      var d := devs[list[0]];
      if Serves(d, cap) { BusyArePublic(d, list[0], 0); }
      assert list[0] !in list[1..];
    }
  }

  // ----- which channels may serve an operation type

  /** A channel with clients, on a listed public device that can do `cap`. */
  predicate Usable(devs: seq<Device>, list: seq<nat>, cap: nat, id: Id) {
    && id.dev in list && id.dev < |devs| && cap in devs[id.dev].caps && !devs[id.dev].isPrivate
    && id.chan < |devs[id.dev].chans| && devs[id.dev].chans[id.chan].clients > 0
  }

  /** In the order in which the lists are walked. */
  predicate Precedes(list: seq<nat>, x: Id, y: Id) {
    || (x.dev == y.dev && x.chan < y.chan)
    || exists i, j :: 0 <= i < j < |list| && list[i] == x.dev && list[j] == y.dev
  }

  lemma {:induction false} BusyExact(d: Device, dev: nat, c: nat, id: Id)
    requires c <= |d.chans|
    ensures id in BusyFrom(d, dev, c) <==> id.dev == dev && c <= id.chan < |d.chans| && d.chans[id.chan].clients > 0
    decreases |d.chans| - c
  {
    if c < |d.chans| { BusyExact(d, dev, c + 1, id); }
  }

  lemma {:induction false} BusyOrdered(d: Device, dev: nat, c: nat, i: nat, j: nat)
    requires c <= |d.chans| && i < j < |BusyFrom(d, dev, c)|
    ensures BusyFrom(d, dev, c)[i].dev == BusyFrom(d, dev, c)[j].dev
    ensures BusyFrom(d, dev, c)[i].chan < BusyFrom(d, dev, c)[j].chan
    decreases |d.chans| - c
  {
    var rest := BusyFrom(d, dev, c + 1);
    if d.chans[c].clients == 0 {
      BusyOrdered(d, dev, c + 1, i, j);
    } else {
      BusyExact(d, dev, c + 1, rest[j - 1]);
      assert rest[j - 1] in rest;
      if i > 0 { BusyOrdered(d, dev, c + 1, i - 1, j - 1); }
    }
  }

  /** nth_chan looks at exactly the usable channels... */
  lemma {:induction false} EligibleExact(devs: seq<Device>, list: seq<nat>, cap: nat, id: Id)
    requires Listed(devs, list)
    ensures id in Eligible(devs, list, cap) <==> Usable(devs, list, cap, id)
  {
    if list != [] {
      EligibleExact(devs, list[1..], cap, id);
      BusyExact(devs[list[0]], list[0], 0, id);
      assert id.dev in list <==> id.dev == list[0] || id.dev in list[1..];
    }
  }

  /** ... in the order of the lists. */
  lemma {:induction false} EligibleOrdered(devs: seq<Device>, list: seq<nat>, cap: nat, i: nat, j: nat)
    requires Listed(devs, list) && i < j < |Eligible(devs, list, cap)|
    ensures Precedes(list, Eligible(devs, list, cap)[i], Eligible(devs, list, cap)[j])
  {
    var d, e := devs[list[0]], Eligible(devs, list, cap);
    var here := if Serves(d, cap) then BusyFrom(d, list[0], 0) else [];
    var rest := Eligible(devs, list[1..], cap);
    assert e == here + rest;
    if j < |here| {
      BusyOrdered(d, list[0], 0, i, j);
    } else if i < |here| {
      assert here[i] in here && rest[j - |here|] in rest;
      BusyExact(d, list[0], 0, here[i]);
      EligibleExact(devs, list[1..], cap, rest[j - |here|]);
      var k :| 0 <= k < |list[1..]| && list[1..][k] == rest[j - |here|].dev;
      assert list[0] == e[i].dev && list[k + 1] == e[j].dev;
    } else {
      EligibleOrdered(devs, list[1..], cap, i - |here|, j - |here|);
      PrecedesInMore(list, e[i], e[j]);
    }
  }

  lemma PrecedesInMore(list: seq<nat>, x: Id, y: Id)
    requires list != [] && Precedes(list[1..], x, y)
    ensures Precedes(list, x, y)
  {
    if !(x.dev == y.dev && x.chan < y.chan) {
      var i, j :| 0 <= i < j < |list[1..]| && list[1..][i] == x.dev && list[1..][j] == y.dev;
      assert list[i + 1] == x.dev && list[j + 1] == y.dev;
    }
  }

  /** The choice of nth_chan: a usable channel, if there is one; the n-th of them, or one that is named by
      the fewest entries. */
  lemma NthChanOk(devs: seq<Device>, list: seq<nat>, cap: nat, n: int)
    requires Listed(devs, list) && Distinct(list)
    ensures AllValid(devs, Eligible(devs, list, cap))
    ensures var r := NthChan(devs, Eligible(devs, list, cap), n);
            && (r.Some? ==> Usable(devs, list, cap, r.value))
            && (r.None? ==> forall id :: !Usable(devs, list, cap, id))
            && (r.Some? && !(0 <= n < |Eligible(devs, list, cap)|) ==>
                  forall id :: Usable(devs, list, cap, id) ==>
                    Valid(devs, id) && CountOf(devs, r.value) <= CountOf(devs, id))
  {
    EligibleArePublic(devs, list, cap);
    var ids := Eligible(devs, list, cap);
    var r := NthChan(devs, ids, n);
    hide Eligible, Distinct, Listed;
    if r.Some? { assert r.value in ids; EligibleExact(devs, list, cap, r.value); }
    forall id ensures Usable(devs, list, cap, id) <==> id in ids { EligibleExact(devs, list, cap, id); }
  }

  // ----- dma_channel_rebalance

  /** The operation type of each table entry, in the order in which entries are filled. */
  function Slots(caps: seq<nat>, online: nat): seq<nat> {
    if caps == [] then [] else seq(online, _ => caps[0]) + Slots(caps[1..], online)
  }

  /** Fill the entries for `slots`; the n-th call of nth_chan asks for the n-th channel, or on a
      uniprocessor always for channel -1, which does not exist. */
  function Distribute(devs: seq<Device>, list: seq<nat>, slots: seq<nat>, n: int, smp: bool)
    : (r: (seq<Device>, seq<Option<Id>>))
    requires Listed(devs, list) && Distinct(list)
    ensures |r.0| == |devs| && |r.1| == |slots|
    decreases |slots|
  {
    if slots == [] then (devs, [])
    else
      EligibleArePublic(devs, list, slots[0]);
      var pick := NthChan(devs, Eligible(devs, list, slots[0]), n);
      var devs1 := if pick.Some? then Bump(devs, pick.value) else devs;
      var (devs2, rest) := Distribute(devs1, list, slots[1..], if smp then n + 1 else n, smp);
      (devs2, [pick] + rest)
  }

  function Cleared(d: Device): Device {
    d.(chans := seq(|d.chans|, i requires 0 <= i < |d.chans| => d.chans[i].(tableCount := 0)))
  }

  function ClearCounts(devs: seq<Device>, list: seq<nat>): (r: seq<Device>)
    ensures |r| == |devs|
  {
    seq(|devs|, i requires 0 <= i < |devs| =>
      if i in list && !devs[i].isPrivate then Cleared(devs[i]) else devs[i])
  }

  function Rebalance(devs: seq<Device>, list: seq<nat>, refCount: nat, online: nat, smp: bool)
    : (r: (seq<Device>, seq<Option<Id>>))
    requires Listed(devs, list) && Distinct(list)
  {
    var slots := Slots(TABLE_CAPS, online);
    var devs0 := ClearCounts(devs, list);
    if refCount == 0 then (devs0, seq(|slots|, _ => None))
    else Distribute(devs0, list, slots, if smp then 0 else -1, smp)
  }

  lemma ClearedSame(devs: seq<Device>, list: seq<nat>)
    ensures Same(devs, ClearCounts(devs, list))
    ensures forall id :: Valid(devs, id) && id.dev in list && !devs[id.dev].isPrivate
                         ==> CountOf(ClearCounts(devs, list), id) == 0
  {}

  // ----- table counts count

  function Occurs(t: seq<Option<Id>>, id: Id): nat {
    if t == [] then 0 else (if t[0] == Some(id) then 1 else 0) + Occurs(t[1..], id)
  }

  lemma {:induction false} DistributeCounts(devs: seq<Device>, list: seq<nat>, slots: seq<nat>, n: int,
                                            smp: bool, id: Id)
    requires Listed(devs, list) && Distinct(list) && Valid(devs, id)
    ensures var (devs2, t) := Distribute(devs, list, slots, n, smp);
            && Same(devs, devs2)
            && Valid(devs2, id) && CountOf(devs2, id) == CountOf(devs, id) + Occurs(t, id)
    decreases |slots|
  {
    if slots != [] {
      EligibleArePublic(devs, list, slots[0]);
      var pick := NthChan(devs, Eligible(devs, list, slots[0]), n);
      if pick.Some? {
        var devs1 := Bump(devs, pick.value);
        BumpSame(devs, pick.value);
        DistributeCounts(devs1, list, slots[1..], if smp then n + 1 else n, smp, id);
        var r := Distribute(devs1, list, slots[1..], if smp then n + 1 else n, smp);
        SameTransitive(devs, devs1, r.0);
      } else {
        DistributeCounts(devs, list, slots[1..], if smp then n + 1 else n, smp, id);
      }
    }
  }

  lemma {:induction false} DistributeSame(devs: seq<Device>, list: seq<nat>, slots: seq<nat>, n: int, smp: bool)
    requires Listed(devs, list) && Distinct(list)
    ensures Same(devs, Distribute(devs, list, slots, n, smp).0)
    decreases |slots|
  {
    if slots != [] {
      EligibleArePublic(devs, list, slots[0]);
      var pick := NthChan(devs, Eligible(devs, list, slots[0]), n);
      var devs1 := if pick.Some? then Bump(devs, pick.value) else devs;
      if pick.Some? { BumpSame(devs, pick.value); }
      DistributeSame(devs1, list, slots[1..], if smp then n + 1 else n, smp);
      SameTransitive(devs, devs1, Distribute(devs, list, slots, n, smp).0);
    }
  }

  // ----- entries name public channels

  ghost predicate TablePublic(devs: seq<Device>, t: seq<Option<Id>>) {
    forall i :: 0 <= i < |t| && t[i].Some? ==> PublicId(devs, t[i].value)
  }

  lemma SamePublic(a: seq<Device>, b: seq<Device>, id: Id)
    requires Same(a, b)
    ensures PublicId(a, id) <==> PublicId(b, id)
  {
    if Valid(a, id) {
      assert SameDevice(a[id.dev], b[id.dev]);
      assert SameChan(a[id.dev].chans[id.chan], b[id.dev].chans[id.chan]);
    }
  }

  lemma {:induction false} DistributePublic(devs: seq<Device>, list: seq<nat>, slots: seq<nat>, n: int, smp: bool)
    requires Listed(devs, list) && Distinct(list)
    ensures TablePublic(devs, Distribute(devs, list, slots, n, smp).1)
    decreases |slots|
  {
    if slots != [] {
      EligibleArePublic(devs, list, slots[0]);
      var ids := Eligible(devs, list, slots[0]);
      var pick := NthChan(devs, ids, n);
      var devs1 := if pick.Some? then Bump(devs, pick.value) else devs;
      if pick.Some? { BumpSame(devs, pick.value); }
      DistributePublic(devs1, list, slots[1..], if smp then n + 1 else n, smp);
      var t := Distribute(devs, list, slots, n, smp).1;
      forall i | 0 <= i < |t| && t[i].Some? ensures PublicId(devs, t[i].value) {
        if i > 0 { SamePublic(devs, devs1, t[i].value); }
      }
    }
  }

  /** After a rebalance, every entry names a public channel with clients, and nothing but table
      counts has changed. */
  lemma RebalancePublic(devs: seq<Device>, list: seq<nat>, refCount: nat, online: nat, smp: bool)
    requires Listed(devs, list) && Distinct(list)
    ensures var (devs2, t) := Rebalance(devs, list, refCount, online, smp);
            Same(devs, devs2) && TablePublic(devs2, t)
  {
    var devs0 := ClearCounts(devs, list);
    ClearedSame(devs, list);
    if refCount > 0 {
      var slots, n := Slots(TABLE_CAPS, online), if smp then 0 else -1;
      DistributeSame(devs0, list, slots, n, smp);
      DistributePublic(devs0, list, slots, n, smp);
      var (devs2, t) := Distribute(devs0, list, slots, n, smp);
      SameTransitive(devs, devs0, devs2);
      forall i | 0 <= i < |t| && t[i].Some? ensures PublicId(devs2, t[i].value) {
        SamePublic(devs0, devs2, t[i].value);
      }
    }
  }

  /** Each table count of a listed public device equals the number of entries naming the channel. */
  lemma RebalanceCounts(devs: seq<Device>, list: seq<nat>, refCount: nat, online: nat, smp: bool, id: Id)
    requires Listed(devs, list) && Distinct(list) && Valid(devs, id)
    requires id.dev in list && !devs[id.dev].isPrivate
    ensures var (devs2, t) := Rebalance(devs, list, refCount, online, smp);
            Valid(devs2, id) && CountOf(devs2, id) == Occurs(t, id)
  {
    ClearedSame(devs, list);
    var slots := Slots(TABLE_CAPS, online);
    if refCount > 0 {
      DistributeCounts(ClearCounts(devs, list), list, slots, if smp then 0 else -1, smp, id);
    } else {
      NoneOccurs(|slots|, id);
    }
  }

  lemma {:induction false} NoneOccurs(k: nat, id: Id)
    ensures Occurs(seq(k, _ => None), id) == 0
  {
    if k > 0 {
      assert seq<Option<Id>>(k, _ => None)[1..] == seq(k - 1, _ => None);
      NoneOccurs(k - 1, id);
    }
  }

  // ----- every entry can do its operation

  lemma SameUsable(a: seq<Device>, b: seq<Device>, list: seq<nat>, cap: nat, id: Id)
    requires Same(a, b)
    ensures Usable(a, list, cap, id) <==> Usable(b, list, cap, id)
  {
    if id.dev < |a| {
      assert SameDevice(a[id.dev], b[id.dev]);
      if id.chan < |a[id.dev].chans| { assert SameChan(a[id.dev].chans[id.chan], b[id.dev].chans[id.chan]); }
    }
  }

  /** Entry `i` names a channel that can do the operation of its row, if there is any. */
  predicate EntryServes(devs: seq<Device>, list: seq<nat>, cap: nat, entry: Option<Id>) {
    && (entry.Some? ==> Usable(devs, list, cap, entry.value))
    && (entry.None? ==> forall dev, c :: 0 <= dev < |devs| && 0 <= c < |devs[dev].chans| ==> !Usable(devs, list, cap, Id(dev, c)))
  }

  lemma {:induction false} DistributeServes(devs: seq<Device>, list: seq<nat>, slots: seq<nat>, n: int, smp: bool, i: nat)
    requires Listed(devs, list) && Distinct(list) && i < |slots|
    ensures EntryServes(devs, list, slots[i], Distribute(devs, list, slots, n, smp).1[i])
    decreases |slots|
  {
    hide Eligible, Distinct, Bump, Same, Usable, Listed;
    NthChanOk(devs, list, slots[0], n);
    var pick := NthChan(devs, Eligible(devs, list, slots[0]), n);
    if i > 0 {
      EligibleArePublic(devs, list, slots[0]);
      var devs1 := if pick.Some? then Bump(devs, pick.value) else devs;
      if pick.Some? { BumpSame(devs, pick.value); } else { SameSelf(devs); }
      var n' := if smp then n + 1 else n;
      assert Listed(devs1, list) by { SameListed(devs, devs1, list); }
      DistributeServes(devs1, list, slots[1..], n', smp, i - 1);
      hide NthChan, Distribute;
      SameServes(devs, devs1, list, slots[i], Distribute(devs1, list, slots[1..], n', smp).1[i - 1]);
    }
  }

  lemma SameListed(a: seq<Device>, b: seq<Device>, list: seq<nat>)
    requires Same(a, b) && Listed(a, list)
    ensures Listed(b, list)
  {}

  lemma SameSelf(devs: seq<Device>)
    ensures Same(devs, devs)
  {}

  lemma SameServes(a: seq<Device>, b: seq<Device>, list: seq<nat>, cap: nat, entry: Option<Id>)
    requires Same(a, b) && EntryServes(b, list, cap, entry)
    ensures EntryServes(a, list, cap, entry)
  {
    forall dev: nat, c: nat | dev < |a| && c < |a[dev].chans| && entry.None? ensures !Usable(a, list, cap, Id(dev, c)) {
      assert SameDevice(a[dev], b[dev]);
      SameUsable(a, b, list, cap, Id(dev, c));
    }
    if entry.Some? { SameUsable(a, b, list, cap, entry.value); }
  }

  /** After a rebalance every entry names a channel whose device is listed, public and able to do the
      operation of the entry's row, and which has clients; an entry is empty only if there is none. */
  lemma RebalanceServes(devs: seq<Device>, list: seq<nat>, refCount: nat, online: nat, smp: bool, i: nat)
    requires Listed(devs, list) && Distinct(list) && refCount > 0 && i < |Slots(TABLE_CAPS, online)|
    ensures var t, cap := Rebalance(devs, list, refCount, online, smp).1, Slots(TABLE_CAPS, online)[i];
            && |t| == |Slots(TABLE_CAPS, online)|
            && (t[i].Some? ==> var id := t[i].value;
                  && id.dev in list && id.dev < |devs| && id.chan < |devs[id.dev].chans|
                  && cap in devs[id.dev].caps && !devs[id.dev].isPrivate && devs[id.dev].chans[id.chan].clients > 0)
            && (t[i].None? ==> forall dev, c :: 0 <= dev < |devs| && 0 <= c < |devs[dev].chans| && dev in list ==>
                  cap !in devs[dev].caps || devs[dev].isPrivate || devs[dev].chans[c].clients == 0)
  {
    RebalanceEntry(devs, list, refCount, online, smp, i);
    hide Rebalance, EntryServes, Slots;
    ServesMeans(devs, list, Slots(TABLE_CAPS, online)[i], Rebalance(devs, list, refCount, online, smp).1[i]);
  }

  lemma RebalanceEntry(devs: seq<Device>, list: seq<nat>, refCount: nat, online: nat, smp: bool, i: nat)
    requires Listed(devs, list) && Distinct(list) && refCount > 0 && i < |Slots(TABLE_CAPS, online)|
    ensures var t := Rebalance(devs, list, refCount, online, smp).1;
            |t| == |Slots(TABLE_CAPS, online)| && EntryServes(devs, list, Slots(TABLE_CAPS, online)[i], t[i])
  {
    var devs0, slots := ClearCounts(devs, list), Slots(TABLE_CAPS, online);
    ClearedSame(devs, list);
    SameListed(devs, devs0, list);
    DistributeServes(devs0, list, slots, if smp then 0 else -1, smp, i);
    hide Distribute, ClearCounts, Slots, Same, Distinct, Usable, EntryServes;
    SameServes(devs, devs0, list, slots[i], Rebalance(devs, list, refCount, online, smp).1[i]);
  }

  lemma AllServe(devs: seq<Device>, list: seq<nat>, refCount: nat, online: nat, smp: bool)
    requires Listed(devs, list) && Distinct(list)
    ensures var t, slots := Rebalance(devs, list, refCount, online, smp).1, Slots(TABLE_CAPS, online);
            refCount > 0 ==> |t| == |slots| && forall i :: 0 <= i < |slots| ==> EntryServes(devs, list, slots[i], t[i])
  {
    hide EntryServes, Distinct, Listed, Slots;
    var t, slots := Rebalance(devs, list, refCount, online, smp).1, Slots(TABLE_CAPS, online);
    forall i | refCount > 0 && 0 <= i < |slots| ensures |t| == |slots| && EntryServes(devs, list, slots[i], t[i]) {
      RebalanceEntry(devs, list, refCount, online, smp, i);
    }
  }

  lemma ServesMeans(devs: seq<Device>, list: seq<nat>, cap: nat, entry: Option<Id>)
    requires EntryServes(devs, list, cap, entry)
    ensures entry.Some? ==> var id := entry.value;
              && id.dev in list && id.dev < |devs| && id.chan < |devs[id.dev].chans|
              && cap in devs[id.dev].caps && !devs[id.dev].isPrivate && devs[id.dev].chans[id.chan].clients > 0
    ensures entry.None? ==> forall dev, c :: 0 <= dev < |devs| && 0 <= c < |devs[dev].chans| && dev in list ==>
              cap !in devs[dev].caps || devs[dev].isPrivate || devs[dev].chans[c].clients == 0
  {
    forall dev, c | entry.None? && 0 <= dev < |devs| && 0 <= c < |devs[dev].chans| && dev in list
      ensures cap !in devs[dev].caps || devs[dev].isPrivate || devs[dev].chans[c].clients == 0
    {
      assert !Usable(devs, list, cap, Id(dev, c));
    }
  }

  /** Different members of a list are no more than it is long. */
  lemma {:induction false} NoMoreThan(s: seq<Id>, t: seq<Id>)
    requires Distinct(s) && forall i :: 0 <= i < |s| ==> s[i] in t
    ensures |s| <= |t|
  {
    SizeOfDistinct(s);
    SizeAtMost(t);
    var a, b := set i | 0 <= i < |s| :: s[i], set i | 0 <= i < |t| :: t[i];
    assert a <= b;
    Subset(a, b);
  }

  lemma {:induction false} SizeOfDistinct(s: seq<Id>)
    requires Distinct(s)
    ensures |set i | 0 <= i < |s| :: s[i]| == |s|
  {
    if s != [] {
      var front, last := s[..|s| - 1], s[|s| - 1];
      SizeOfDistinct(front);
      assert (set i | 0 <= i < |s| :: s[i]) == (set i | 0 <= i < |front| :: front[i]) + {last};
    }
  }

  lemma {:induction false} SizeAtMost(s: seq<Id>)
    ensures |set i | 0 <= i < |s| :: s[i]| <= |s|
  {
    if s != [] {
      var front, last := s[..|s| - 1], s[|s| - 1];
      SizeAtMost(front);
      assert (set i | 0 <= i < |s| :: s[i]) == (set i | 0 <= i < |front| :: front[i]) + {last};
    }
  }

  lemma Subset(a: set<Id>, b: set<Id>)
    requires a <= b
    ensures |a| <= |b|
  {
    assert b == a + (b - a);
  }

  // ----- CPU isolation

  /** The first entry, when the channel asked for exists. */
  lemma DistributeHead(devs: seq<Device>, list: seq<nat>, slots: seq<nat>, n: nat)
    requires Listed(devs, list) && Distinct(list) && slots != [] && n < |Eligible(devs, list, slots[0])|
    ensures var pick := Eligible(devs, list, slots[0])[n];
            && Valid(devs, pick) && Listed(Bump(devs, pick), list)
            && Distribute(devs, list, slots, n, true).1 ==
               [Some(pick)] + Distribute(Bump(devs, pick), list, slots[1..], n + 1, true).1
  {
    hide Eligible, Bump;
    EligibleArePublic(devs, list, slots[0]);
  }

  lemma {:induction false} FirstRow(devs: seq<Device>, list: seq<nat>, slots: seq<nat>, n: nat, k: nat, cap: nat, i: nat)
    requires Listed(devs, list) && Distinct(list) && i < k <= |slots|
    requires forall j :: 0 <= j < k ==> slots[j] == cap
    requires n + k <= |Eligible(devs, list, cap)|
    ensures Distribute(devs, list, slots, n, true).1[i] == Some(Eligible(devs, list, cap)[n + i])
    decreases |slots|
  {
    hide Distribute, Eligible, Bump, Distinct, Same, Valid;
    DistributeHead(devs, list, slots, n);
    if i > 0 {
      var devs1 := Bump(devs, Eligible(devs, list, cap)[n]);
      BumpSame(devs, Eligible(devs, list, cap)[n]);
      SameEligible(devs, devs1, list, cap);
      FirstRow(devs1, list, slots[1..], n + 1, k - 1, cap, i - 1);
    }
  }

  /** On SMP, if there are at least as many channels with clients on listed public memcpy devices as
      there are online CPUs (`chans` names that many), then the CPUs get different ones. */
  lemma CpusIsolated(devs: seq<Device>, list: seq<nat>, refCount: nat, online: nat, chans: seq<Id>, i: nat, j: nat)
    requires Listed(devs, list) && Distinct(list) && refCount > 0 && i < j < online
    requires Distinct(chans) && |chans| >= online
    requires forall k :: 0 <= k < |chans| ==> Usable(devs, list, MEMCPY, chans[k])
    ensures var t := Rebalance(devs, list, refCount, online, true).1;
            && j < |t| && t[i].Some? && t[j].Some? && t[i] != t[j]
            && Usable(devs, list, MEMCPY, t[i].value) && Usable(devs, list, MEMCPY, t[j].value)
  {
    hide Usable;
    forall k | 0 <= k < |chans| ensures chans[k] in Eligible(devs, list, MEMCPY) {
      EligibleExact(devs, list, MEMCPY, chans[k]);
    }
    NoMoreThan(chans, Eligible(devs, list, MEMCPY));
    EntriesDiffer(devs, list, refCount, online, i, j);
    var slots := Slots(TABLE_CAPS, online);
    assert TABLE_CAPS[0] == MEMCPY;
    assert forall c :: 0 <= c < online ==> slots[c] == MEMCPY;
    hide Rebalance, Eligible, Slots;
    MemcpyEntry(devs, list, refCount, online, i);
    MemcpyEntry(devs, list, refCount, online, j);
  }

  lemma MemcpyEntry(devs: seq<Device>, list: seq<nat>, refCount: nat, online: nat, i: nat)
    requires Listed(devs, list) && Distinct(list) && refCount > 0 && i < online
    ensures var t := Rebalance(devs, list, refCount, online, true).1;
            i < |t| && (t[i].Some? ==> Usable(devs, list, MEMCPY, t[i].value))
  {
    hide Rebalance;
    var slots := Slots(TABLE_CAPS, online);
    assert TABLE_CAPS[0] == MEMCPY && slots[i] == MEMCPY && i < |slots|;
    RebalanceServes(devs, list, refCount, online, true, i);
  }

  lemma EntriesDiffer(devs: seq<Device>, list: seq<nat>, refCount: nat, online: nat, i: nat, j: nat)
    requires Listed(devs, list) && Distinct(list) && refCount > 0 && i < j < online
    requires online <= |Eligible(devs, list, MEMCPY)|
    ensures var t := Rebalance(devs, list, refCount, online, true).1;
            && j < |t| && t[i].Some? && t[j].Some? && t[i] != t[j]
  {
    var devs0, slots := ClearCounts(devs, list), Slots(TABLE_CAPS, online);
    ClearedSame(devs, list);
    SameEligible(devs, devs0, list, MEMCPY);
    assert TABLE_CAPS[0] == MEMCPY;
    assert forall c :: 0 <= c < online ==> slots[c] == MEMCPY;
    FirstRow(devs0, list, slots, 0, online, MEMCPY, i);
    FirstRow(devs0, list, slots, 0, online, MEMCPY, j);
    EligibleArePublic(devs0, list, MEMCPY);
  }

  // ----- fairness

  predicate Even(devs: seq<Device>, ids: seq<Id>)
    requires AllValid(devs, ids)
  {
    forall i, j :: 0 <= i < |ids| && 0 <= j < |ids| ==>
      CountOf(devs, ids[i]) <= CountOf(devs, ids[j]) + 1
  }

  /** While n is below the number of channels, each is used at most once, and from n on not at all. */
  predicate Unused(devs: seq<Device>, ids: seq<Id>, n: int)
    requires AllValid(devs, ids)
  {
    forall i :: 0 <= i < |ids| ==> CountOf(devs, ids[i]) <= 1 && (i >= n ==> CountOf(devs, ids[i]) == 0)
  }

  predicate FairSoFar(devs: seq<Device>, ids: seq<Id>, n: int, smp: bool)
    requires AllValid(devs, ids)
  {
    if smp && n < |ids| then n >= 0 && Unused(devs, ids, n) else Even(devs, ids)
  }

  lemma FairPick(devs: seq<Device>, ids: seq<Id>, n: int, smp: bool)
    requires ids != [] && AllValid(devs, ids) && Distinct(ids) && FairSoFar(devs, ids, n, smp)
    requires smp ==> n >= 0
    requires !smp ==> n == -1
    ensures var devs1 := Bump(devs, NthChan(devs, ids, n).value);
            && AllValid(devs1, ids) && FairSoFar(devs1, ids, if smp then n + 1 else n, smp)
  {
    BumpSame(devs, NthChan(devs, ids, n).value);
  }

  lemma {:induction false} DistributeFair(devs: seq<Device>, list: seq<nat>, slots: seq<nat>, n: int, smp: bool,
                                          ids: seq<Id>)
    requires Listed(devs, list) && Distinct(list)
    requires forall i :: 0 <= i < |slots| ==>
               Eligible(devs, list, slots[i]) == [] || Eligible(devs, list, slots[i]) == ids
    requires AllValid(devs, ids) && Distinct(ids) && FairSoFar(devs, ids, n, smp)
    requires smp ==> n >= 0
    requires !smp ==> n == -1
    ensures var devs2 := Distribute(devs, list, slots, n, smp).0;
            AllValid(devs2, ids) && Even(devs2, ids)
    decreases |slots|
  {
    if slots != [] {
      var e := Eligible(devs, list, slots[0]);
      EligibleArePublic(devs, list, slots[0]);
      var n' := if smp then n + 1 else n;
      if e == [] {
        DistributeFair(devs, list, slots[1..], n', smp, ids);
      } else {
        var pick := NthChan(devs, ids, n).value;
        var devs1 := Bump(devs, pick);
        FairPick(devs, ids, n, smp);
        BumpSame(devs, pick);
        forall i | 0 <= i < |slots[1..]| ensures Eligible(devs1, list, slots[1..][i]) == [] || Eligible(devs1, list, slots[1..][i]) == ids {
          SameEligible(devs, devs1, list, slots[i + 1]);
        }
        DistributeFair(devs1, list, slots[1..], n', smp, ids);
      }
    }
  }

  /** Rebalance fairness: if every operation type that has channels at all sees the same ones, no
      channel gets two more entries than another. */
  lemma RebalanceFair(devs: seq<Device>, list: seq<nat>, refCount: nat, online: nat, smp: bool, ids: seq<Id>)
    requires Listed(devs, list) && Distinct(list) && refCount > 0
    requires forall cap :: cap in Slots(TABLE_CAPS, online) ==>
               Eligible(devs, list, cap) == [] || Eligible(devs, list, cap) == ids
    requires exists cap :: Eligible(devs, list, cap) == ids
    ensures var t := Rebalance(devs, list, refCount, online, smp).1;
            forall i, j :: 0 <= i < |ids| && 0 <= j < |ids| ==> Occurs(t, ids[i]) <= Occurs(t, ids[j]) + 1
  {
    var devs0, slots := ClearCounts(devs, list), Slots(TABLE_CAPS, online);
    var n := if smp then 0 else -1;
    hide Distribute, Eligible, ClearCounts, Slots, Same, Distinct, Valid, PublicId, Occurs;
    var cap0 :| Eligible(devs, list, cap0) == ids;
    ClearedSame(devs, list);
    SameEligible(devs, devs0, list, cap0);
    EligibleArePublic(devs0, list, cap0);
    forall i | 0 <= i < |slots| ensures Eligible(devs0, list, slots[i]) == [] || Eligible(devs0, list, slots[i]) == ids {
      SameEligible(devs, devs0, list, slots[i]);
    }
    UnusedAtFirst(devs, list, ids);
    DistributeFair(devs0, list, slots, n, smp, ids);
    var r := Distribute(devs0, list, slots, n, smp);
    forall i | 0 <= i < |ids| ensures CountOf(r.0, ids[i]) == Occurs(r.1, ids[i]) {
      DistributeCounts(devs0, list, slots, n, smp, ids[i]);
    }
  }

  lemma UnusedAtFirst(devs: seq<Device>, list: seq<nat>, ids: seq<Id>)
    requires Listed(devs, list)
    requires forall i :: 0 <= i < |ids| ==> PublicId(ClearCounts(devs, list), ids[i]) && ids[i].dev in list
    ensures AllValid(ClearCounts(devs, list), ids) && Unused(ClearCounts(devs, list), ids, 0)
  {
    ClearedSame(devs, list);
  }
}
