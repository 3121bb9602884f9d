/**
 The DMA engine as an object: dmaengine.c's operations, each run under dma_list_mutex, proved to do
 what its function in DmaDevices, DmaTable or DmaEngineRun says.
 */
module DmaEngine {
  import opened DmaDevices
  import opened DmaTable
  import Run = DmaEngineRun

  class Allocator {
    const online: nat
    const smp: bool
    var devs: seq<Device>
    var list: seq<nat>
    var refCount: nat
    var copyRef: nat
    var table: seq<Option<Id>>

    constructor (online: nat, smp: bool)
      ensures this.online == online && this.smp == smp
      ensures devs == [] && list == [] && refCount == 0 && copyRef == 0 && table == []
      ensures Valid()
    {
      this.online, this.smp := online, smp;
      devs, list, refCount, copyRef, table := [], [], 0, 0, [];
    }

    predicate Valid()
      reads this
    {
      Listed(devs, list) && Distinct(list)
    }

    // ----- references on one channel

    /** dma_chan_get, including the loop of balance_ref_count. */
    method ChanGet(dev: nat, c: nat, g: Grab) returns (o: Outcome)
      requires dev < |devs| && c < |devs[dev].chans|
      modifies this`devs
      ensures var r := DmaDevices.ChanGet(old(devs)[dev], c, refCount, g);
              devs == old(devs)[dev := r.0] && o == r.1
    {
      var d := devs[dev];
      var n, refs := d.chans[c].clients, d.refs;
      o := Ok;
      if n > 0 {
        n, refs := n + 1, refs + 1;
      } else if g == NoModule {
        o := NoDevice;
      } else if g == NoResources {
        o := Failed;
      } else {
        n, refs := 1, refs + 1;
        if !d.isPrivate {
          while n < refCount
            invariant 1 <= n <= Max(1, refCount) && refs == d.refs + n
          {
            n, refs := n + 1, refs + 1;
          }
        }
      }
      if o == Ok {
        devs := devs[dev := SetClients(d, c, n, refs)];
      } else {
        assert devs[dev := d] == devs;
      }
    }

    /** The inner loop of dmaengine_get over the channels of one public device. */
    method GetChannels(dev: nat, env: Id -> Grab) returns (ok: bool)
      requires dev < |devs|
      modifies this`devs
      ensures var r := GetFrom(old(devs)[dev], 0, refCount, (c: nat) => env(Id(dev, c)));
              devs == old(devs)[dev := r.0] && ok == r.1
    {
      ghost var f := (c: nat) => env(Id(dev, c));
      ghost var goal := GetFrom(devs[dev], 0, refCount, f);
      assert devs[dev := devs[dev]] == devs;
      var c := 0;
      ok := true;
      while c < |devs[dev].chans| && ok
        invariant |devs| == |old(devs)| && devs == old(devs)[dev := devs[dev]]
        invariant c <= |devs[dev].chans|
        invariant ok ==> goal == GetFrom(devs[dev], c, refCount, f)
        invariant !ok ==> goal == (devs[dev], false)
        decreases ok, |devs[dev].chans| - c
      {
        ghost var d := devs[dev];
        var o := ChanGet(dev, c, env(Id(dev, c)));
        if o == NoDevice {
          ok := false;
        } else {
          c := c + 1;
        }
      }
    }

    /** The walk of dmaengine_get over the device list. */
    method WalkGet(env: Id -> Grab)
      requires Valid()
      modifies this`devs, this`list
      ensures Valid() && (devs, list) == Run.GetAll(old(devs), old(list), refCount, env)
    {
      hide GetFrom, Distinct;
      ghost var goal := Run.GetAll(devs, list, refCount, env);
      GetAllListed(devs, list, refCount, env);
      var kept, rest: seq<nat> := [], list;
      while rest != []
        invariant |devs| == |old(devs)| && Listed(devs, rest)
        invariant goal.0 == Run.GetAll(devs, rest, refCount, env).0
        invariant goal.1 == kept + Run.GetAll(devs, rest, refCount, env).1
        decreases |rest|
      {
        var dev := rest[0];
        var ok := true;
        if !devs[dev].isPrivate {
          ok := GetChannels(dev, env);
        } else {
          assert devs[dev := devs[dev]] == devs;
        }
        if ok {
          kept := kept + [dev];
        }
        rest := rest[1..];
      }
      assert kept + [] == kept;
      list := kept;
    }

    /** dmaengine_get */
    method Get(env: Id -> Grab)
      requires Valid()
      modifies this`devs, this`list, this`refCount, this`table
      ensures Valid() && refCount == old(refCount) + 1
      ensures var r := Run.GetAll(old(devs), old(list), refCount, env);
              && Listed(r.0, r.1) && Distinct(r.1) && list == r.1
              && (if refCount == 1 then (devs, table) == Rebalance(r.0, r.1, 1, online, smp)
                  else devs == r.0 && table == old(table))
    {
      refCount := refCount + 1;
      WalkGet(env);
      if refCount == 1 {
        RebalanceAll();
      }
    }

    /** dmaengine_put */
    method Put()
      requires Valid() && refCount > 0
      modifies this`devs, this`refCount
      ensures Valid() && refCount == old(refCount) - 1
      ensures devs == Run.PutAll(old(devs), list)
    {
      refCount := refCount - 1;
      ghost var goal := Run.PutAll(devs, list);
      var i := 0;
      while i < |list|
        invariant i <= |list| && |devs| == |old(devs)| && Listed(devs, list[i..])
        invariant refCount == old(refCount) - 1
        invariant goal == Run.PutAll(devs, list[i..])
      {
        var dev := list[i];
        if !devs[dev].isPrivate {
          PutChannels(dev);
        } else {
          assert devs[dev := devs[dev]] == devs;
        }
        assert list[i..][1..] == list[i + 1..];
        i := i + 1;
      }
    }

    /** dma_chan_put on every channel of a device. */
    method PutChannels(dev: nat)
      requires dev < |devs|
      modifies this`devs
      ensures devs == old(devs)[dev := PutFrom(old(devs)[dev], 0)]
    {
      var d := devs[dev];
      var c := 0;
      while c < |d.chans|
        invariant c <= |d.chans| && PutFrom(d, c) == PutFrom(devs[dev], 0)
      {
        var n := d.chans[c].clients;
        if n > 0 {
          d := SetClients(d, c, n - 1, d.refs - 1);
        }
        c := c + 1;
      }
      devs := devs[dev := d];
    }

    // ----- the table

    /** nth_chan: the n-th eligible channel, or else the least used; count the choice. */
    method NthChan(cap: nat, n: int) returns (ret: Option<Id>)
      requires Valid()
      modifies this`devs
      ensures AllValid(old(devs), Eligible(old(devs), list, cap))
      ensures ret == DmaTable.NthChan(old(devs), Eligible(old(devs), list, cap), n)
      ensures ret.Some? ==> DmaTable.Valid(old(devs), ret.value) && devs == Bump(old(devs), ret.value)
      ensures ret.None? ==> devs == old(devs)
      ensures ret.Some? ==> Usable(old(devs), list, cap, ret.value)
      ensures ret.None? ==> forall id :: !Usable(old(devs), list, cap, id)
    {
      NthChanOk(devs, list, cap, n);
      hide Eligible, Distinct, Usable;
      ret := Scan(cap, n);
      if ret.Some? {
        devs := Bump(devs, ret.value);
      }
    }

    /** The loops of nth_chan: count down to the n-th channel and keep the least used one. */
    method Scan(cap: nat, n0: int) returns (ret: Option<Id>)
      requires Valid()
      ensures AllValid(devs, Eligible(devs, list, cap))
      ensures ret == DmaTable.NthChan(devs, Eligible(devs, list, cap), n0)
      ensures ret.Some? ==> DmaTable.Valid(devs, ret.value)
    {
      EligibleArePublic(devs, list, cap);
      ghost var ids := Eligible(devs, list, cap);
      hide AllValid, LeastUsed, Distinct;
      ghost var seen: seq<Id> := [];
      var n, min := n0, None;
      ret := None;
      var i := 0;
      ScanNone(devs, ids, n0);
      assert list[0..] == list && [] + ids == ids;
      hide Scanned;
      while i < |list| && ret.None?
        invariant i <= |list|
        invariant ret.None? ==> ids == seen + Eligible(devs, list[i..], cap)
        invariant Scanned(devs, ids, seen, n0, n, min, ret)
      {
        assert list[i..][1..] == list[i + 1..];
        if Serves(devs[list[i]], cap) {
          n, min, ret, seen := ScanDevice(ids, seen, list[i], n0, n, min, Eligible(devs, list[i + 1..], cap));
        } else {
          assert [] + Eligible(devs, list[i + 1..], cap) == Eligible(devs, list[i + 1..], cap);
        }
        i := i + 1;
      }
      assert ret.None? ==> seen + [] == seen;
      ScanDone(devs, ids, seen, n0, n, min, ret);
      if ret.None? {
        ret := min;
      }
    }

    /** The inner loop of nth_chan. */
    method ScanDevice(ghost ids: seq<Id>, ghost seen: seq<Id>, dev: nat, ghost n0: int, n: int, min: Option<Id>,
                      ghost after: seq<Id>)
      returns (n': int, min': Option<Id>, ret: Option<Id>, ghost seen': seq<Id>)
      requires dev < |devs| && AllValid(devs, ids)
      requires ids == seen + (BusyFrom(devs[dev], dev, 0) + after)
      requires Scanned(devs, ids, seen, n0, n, min, None)
      ensures Scanned(devs, ids, seen', n0, n', min', ret)
      ensures ret.None? ==> ids == seen' + after
    {
      hide Scanned, AllValid, LeastUsed;
      n', min', ret, seen' := n, min, None, seen;
      var c := 0;
      while c < |devs[dev].chans| && ret.None?
        invariant c <= |devs[dev].chans|
        invariant Scanned(devs, ids, seen', n0, n', min', ret)
        invariant ret.None? ==> ids == seen' + (BusyFrom(devs[dev], dev, c) + after)
        decreases ret.None?, |devs[dev].chans| - c
      {
        if devs[dev].chans[c].clients > 0 {
          var id := Id(dev, c);
          assert ids == seen' + ([id] + (BusyFrom(devs[dev], dev, c + 1) + after));
          ScanOne(devs, ids, seen', id, n0, n', min', BusyFrom(devs[dev], dev, c + 1) + after);
          if min'.None? || CountOf(devs, id) < CountOf(devs, min'.value) {
            min' := Some(id);
          }
          if n' == 0 {
            ret := Some(id);
          }
          n' := n' - 1;
          seen' := seen' + [id];
        }
        if ret.None? { c := c + 1; }
      }
    }

    /** dma_channel_rebalance */
    method RebalanceAll()
      requires Valid()
      modifies this`devs, this`table
      ensures Valid() && (devs, table) == Rebalance(old(devs), list, refCount, online, smp)
      ensures refCount > 0 ==> |table| == |Slots(TABLE_CAPS, online)|
      ensures refCount > 0 ==>
                forall i :: 0 <= i < |table| ==> EntryServes(old(devs), list, Slots(TABLE_CAPS, online)[i], table[i])
    {
      var slots := Slots(TABLE_CAPS, online);
      AllServe(devs, list, refCount, online, smp);
      hide EntryServes;
      devs := ClearCounts(devs, list);
      table := seq(|slots|, _ => None);
      if refCount > 0 {
        Fill(slots);
      }
    }

    /** The last loops of dma_channel_rebalance: one entry after the other. */
    method Fill(slots: seq<nat>)
      requires Valid()
      modifies this`devs, this`table
      ensures Valid() && (devs, table) == Distribute(old(devs), list, slots, if smp then 0 else -1, smp)
    {
      hide Eligible, DmaTable.NthChan, Distinct, AllValid, Bump, Distribute, Listed;
      ghost var goal := Distribute(devs, list, slots, if smp then 0 else -1, smp);
      var n := if smp then 0 else -1;
      var filled: seq<Option<Id>> := [];
      var i := 0;
      assert slots[0..] == slots;
      while i < |slots|
        invariant i <= |slots| && |filled| == i && Valid() && (!smp ==> n == -1)
        invariant goal.0 == Distribute(devs, list, slots[i..], n, smp).0
        invariant goal.1 == filled + Distribute(devs, list, slots[i..], n, smp).1
      {
        DistributeFirst(devs, list, slots[i..], n, smp);
        var chan := NthChan(slots[i], n);
        if smp {
          n := n + 1;
        }
        filled := filled + [chan];
        assert slots[i..][1..] == slots[i + 1..];
        i := i + 1;
      }
      DistributeNone(devs, list, n, smp);
      assert slots[i..] == [] && filled + [] == filled;
      table := filled;
    }

    // ----- exclusive users

    /** __dma_request_channel */
    method RequestChannel(mask: set<nat>, fn: Id -> bool, env: Id -> Grab) returns (chan: Option<Id>)
      requires Valid()
      modifies this`devs, this`list
      ensures Valid()
      ensures var r := Run.RequestFrom(old(devs), old(list), 0, mask, fn, refCount, env);
              devs == r.devs && list == r.list && chan == r.chan
    {
      ghost var goal := Run.RequestFrom(devs, list, 0, mask, fn, refCount, env);
      chan := None;
      var i := 0;
      var l := list;
      while i < |l| && chan.None?
        invariant i <= |l| && |devs| == |old(devs)| && Listed(devs, l) && Distinct(l)
        invariant chan.None? ==> goal == Run.RequestFrom(devs, l, i, mask, fn, refCount, env)
        invariant chan.Some? ==> goal == Run.Request(devs, l, chan)
        decreases chan.None?, |l| - i
      {
        var dev := l[i];
        var cand := Candidate(devs[dev], mask, (c: nat) => fn(Id(dev, c)));
        if cand.None? {
          i := i + 1;
        } else {
          var (d, o) := TryExclusive(devs[dev], cand.value, refCount, env(Id(dev, cand.value)));
          devs := devs[dev := d];
          if o == Ok {
            chan := Some(Id(dev, cand.value));
          } else if o == NoDevice {
            DropOne(l, i);
            l := l[..i] + l[i + 1..];
          } else {
            i := i + 1;
          }
        }
      }
      list := l;
    }

    /** dma_release_channel, by the holder of the channel. */
    method ReleaseChannel(id: Id)
      requires Valid() && DmaTable.Valid(devs, id)
      modifies this`devs
      ensures Valid() && devs == old(devs)[id.dev := Release(old(devs)[id.dev], id.chan)]
    {
      var d := devs[id.dev];
      var n := d.chans[id.chan].clients;
      if n > 0 {
        d := SetClients(d, id.chan, n - 1, d.refs - 1);
      }
      d := d.(privateCnt := d.privateCnt - 1);
      if d.privateCnt == 0 {
        d := d.(isPrivate := false);
      }
      devs := devs[id.dev := d];
    }
  }

  /** The state of a scan by nth_chan: `seen` are the channels passed so far. */
  ghost predicate Scanned(devs: seq<Device>, ids: seq<Id>, seen: seq<Id>, n0: int, n: int, min: Option<Id>,
                          ret: Option<Id>)
  {
    && AllValid(devs, ids) && seen <= ids && AllValid(devs, seen)
    && n == n0 - |seen|
    && (min.None? <==> seen == [])
    && (min.Some? ==> min.value == LeastUsed(devs, seen))
    && (ret.Some? ==> 0 <= n0 < |ids| && ret.value == ids[n0])
    && (ret.None? ==> !(0 <= n0 < |seen|))
  }

  lemma DistributeNone(devs: seq<Device>, list: seq<nat>, n: int, smp: bool)
    requires Listed(devs, list) && Distinct(list)
    ensures Distribute(devs, list, [], n, smp) == (devs, [])
  {}

  /** The first entry, and the others after it. */
  lemma DistributeFirst(devs: seq<Device>, list: seq<nat>, slots: seq<nat>, n: int, smp: bool)
    requires Listed(devs, list) && Distinct(list) && slots != []
    ensures var ids := Eligible(devs, list, slots[0]);
            && AllValid(devs, ids)
            && var pick := DmaTable.NthChan(devs, ids, n);
               && (pick.Some? ==> DmaTable.Valid(devs, pick.value))
               && var devs1 := if pick.Some? then Bump(devs, pick.value) else devs;
                  && Listed(devs1, list)
                  && var r := Distribute(devs1, list, slots[1..], if smp then n + 1 else n, smp);
                     Distribute(devs, list, slots, n, smp) == (r.0, [pick] + r.1)
  {
    hide Eligible, Bump;
    EligibleArePublic(devs, list, slots[0]);
  }

  lemma DropOne(l: seq<nat>, i: nat)
    requires i < |l| && Distinct(l)
    ensures Distinct(l[..i] + l[i + 1..])
  {
    var r := l[..i] + l[i + 1..];
    forall j, k | 0 <= j < k < |r| ensures r[j] != r[k] {
      assert r[j] == l[if j < i then j else j + 1] && r[k] == l[if k < i then k else k + 1];
    }
  }

  lemma ScanNone(devs: seq<Device>, ids: seq<Id>, n0: int)
    requires AllValid(devs, ids)
    ensures Scanned(devs, ids, [], n0, n0, None, None)
  {}

  /** The scan has ended: with the n-th channel, or having seen all of them. */
  lemma ScanDone(devs: seq<Device>, ids: seq<Id>, seen: seq<Id>, n0: int, n: int, min: Option<Id>, ret: Option<Id>)
    requires Scanned(devs, ids, seen, n0, n, min, ret) && (ret.None? ==> ids == seen)
    ensures (if ret.Some? then ret else min) == DmaTable.NthChan(devs, ids, n0)
    ensures ret.Some? ==> DmaTable.Valid(devs, ret.value)
    ensures ret.None? && min.Some? ==> DmaTable.Valid(devs, min.value)
  {}

  /** One more channel seen. */
  lemma ScanOne(devs: seq<Device>, ids: seq<Id>, seen: seq<Id>, id: Id, n0: int, n: int, min: Option<Id>,
                after: seq<Id>)
    requires Scanned(devs, ids, seen, n0, n, min, None) && ids == seen + ([id] + after)
    ensures DmaTable.Valid(devs, id) && (min.Some? ==> DmaTable.Valid(devs, min.value))
    ensures ids == (seen + [id]) + after
    ensures Scanned(devs, ids, seen + [id], n0, n - 1,
                    if min.None? || CountOf(devs, id) < CountOf(devs, min.value) then Some(id) else min,
                    if n == 0 then Some(id) else None)
  {
    assert ids[|seen|] == id;
    assert (seen + [id])[..|seen|] == seen;
  }

  lemma {:induction false} GetAllListed(devs: seq<Device>, list: seq<nat>, refCount: nat, env: Id -> Grab)
    requires Listed(devs, list) && Distinct(list)
    ensures var r := Run.GetAll(devs, list, refCount, env);
            && (forall i :: i in r.1 ==> i in list) && Distinct(r.1) && Listed(r.0, r.1)
    decreases |list|
  {
    if list != [] {
      var (d, ok) := Run.GetDevice(devs[list[0]], list[0], refCount, env);
      GetAllListed(devs[list[0] := d], list[1..], refCount, env);
      assert list[0] !in list[1..];
    }
  }
}
