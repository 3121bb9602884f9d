/**
 What the operations of the DMA engine are there for: references are taken, requests are granted,
 drivers get listed, and the shared policy has a channel to give.
 */
module DmaGrants {
  import opened DmaDevices
  import opened DmaTable
  import opened DmaEngineRun
  import opened DmaEngineProof
  import opened DmaShared

  /** Every driver grants every first reference. */
  ghost predicate Willing(env: DriverAnswers) {
    forall id :: env(id) == Granted
  }

  // ----- exclusive users

  /** A channel that a request for `mask` and `fn` may be given. */
  predicate MayHave(devs: seq<Device>, mask: set<nat>, fn: Id -> bool, id: Id) {
    id.dev < |devs| && Available(devs[id.dev], mask, (c: nat) => fn(Id(id.dev, c)), id.chan)
  }

  lemma SameMayHave(a: seq<Device>, b: seq<Device>, mask: set<nat>, fn: Id -> bool, id: Id)
    requires |a| == |b| && (id.dev < |a| ==> a[id.dev] == b[id.dev])
    ensures MayHave(a, mask, fn, id) <==> MayHave(b, mask, fn, id)
  {}

  /** What is granted was available: the device can do all that was asked, the filter accepted the
      channel, and nobody used it. */
  lemma {:induction false} GrantedMayHave(devs: seq<Device>, list: seq<nat>, i: nat, mask: set<nat>, fn: Id -> bool,
                                          refCount: nat, env: DriverAnswers)
    requires Listed(devs, list) && Distinct(list) && i <= |list|
    ensures var chan := RequestFrom(devs, list, i, mask, fn, refCount, env).chan;
            chan.Some? ==> chan.value.dev in list[i..] && MayHave(devs, mask, fn, chan.value)
    decreases |list| - i
  {
    if i < |list| {
      hide Available, TryExclusive, Candidate;
      var dev := list[i];
      CandidateExact(devs[dev], mask, (c: nat) => fn(Id(dev, c)));
      match Candidate(devs[dev], mask, (c: nat) => fn(Id(dev, c)))
      case None => GrantedMayHave(devs, list, i + 1, mask, fn, refCount, env);
      case Some(c) =>
        if c < |devs[dev].chans| {
          var (d, o) := TryExclusive(devs[dev], c, refCount, env(Id(dev, c)));
          var devs1 := devs[dev := d];
          if o == NoDevice {
            var list1 := list[..i] + list[i + 1..];
            WithoutOne(list, i);
            GrantedMayHave(devs1, list1, i, mask, fn, refCount, env);
            var chan := RequestFrom(devs1, list1, i, mask, fn, refCount, env).chan;
            if chan.Some? { SameMayHave(devs, devs1, mask, fn, chan.value); }
          } else if o == Failed {
            GrantedMayHave(devs1, list, i + 1, mask, fn, refCount, env);
            var chan := RequestFrom(devs1, list, i + 1, mask, fn, refCount, env).chan;
            if chan.Some? { LaterDiffers(list, i, chan.value.dev); SameMayHave(devs, devs1, mask, fn, chan.value); }
          }
        }
    }
  }

  lemma WithoutOne(list: seq<nat>, i: nat)
    requires i < |list| && Distinct(list)
    ensures var r := list[..i] + list[i + 1..]; Distinct(r) && r[i..] == list[i + 1..] && list[i] !in r
  {
    var r := list[..i] + list[i + 1..];
    forall j, k | 0 <= j < k < |r| ensures r[j] != r[k] {
      assert r[j] == list[if j < i then j else j + 1] && r[k] == list[if k < i then k else k + 1];
    }
    forall j | 0 <= j < |r| ensures r[j] != list[i] {
      assert r[j] == list[if j < i then j else j + 1];
    }
  }

  lemma LaterDiffers(list: seq<nat>, i: nat, dev: nat)
    requires i < |list| && Distinct(list) && dev in list[i + 1..]
    ensures dev != list[i]
  {}

  /** If drivers are willing, a request fails only when there is nothing to be had. */
  lemma {:induction false} GrantedIfAny(devs: seq<Device>, list: seq<nat>, i: nat, mask: set<nat>, fn: Id -> bool,
                                        refCount: nat, env: DriverAnswers, id: Id)
    requires Listed(devs, list) && i <= |list| && Willing(env)
    requires id.dev in list[i..] && MayHave(devs, mask, fn, id)
    ensures RequestFrom(devs, list, i, mask, fn, refCount, env).chan.Some?
    decreases |list| - i
  {
    var dev := list[i];
    CandidateExact(devs[dev], mask, (c: nat) => fn(Id(dev, c)));
    match Candidate(devs[dev], mask, (c: nat) => fn(Id(dev, c)))
    case None => GrantedIfAny(devs, list, i + 1, mask, fn, refCount, env, id);
    case Some(c) => assert TryExclusive(devs[dev], c, refCount, env(Id(dev, c))).1 == Ok;
  }

  /** __dma_request_channel, in any state: what it hands out could do all that was asked, was accepted by
      the filter and used by nobody, and is held from then on; with willing drivers it comes back empty
      only if no listed device had such a channel. */
  lemma RequestTheorem(e: Engine, mask: set<nat>, fn: Id -> bool, env: DriverAnswers)
    requires Inv(e)
    ensures var chan := RequestFrom(e.devs, e.list, 0, mask, fn, e.refCount, env).chan;
            && (chan.Some? ==> var id := chan.value;
                  && id.dev in e.list && id.dev < |e.devs| && (forall cap :: cap in mask ==> cap in e.devs[id.dev].caps)
                  && fn(id) && id !in e.held && id in RequestChannel(e, mask, fn, env).held)
            && (chan.None? && Willing(env) ==> forall id: Id :: id.dev in e.list ==> !MayHave(e.devs, mask, fn, id))
  {
    GrantedMayHave(e.devs, e.list, 0, mask, fn, e.refCount, env);
    assert e.list[0..] == e.list;
    hide RequestFrom, DevicesOk, TablePublic;
    var chan := RequestFrom(e.devs, e.list, 0, mask, fn, e.refCount, env).chan;
    forall id: Id | chan.None? && Willing(env) && id.dev in e.list ensures !MayHave(e.devs, mask, fn, id) {
      if MayHave(e.devs, mask, fn, id) { GrantedIfAny(e.devs, e.list, 0, mask, fn, e.refCount, env, id); }
    }
  }

  // ----- public users

  lemma {:induction false} GetFromTakes(d: Device, c: nat, refCount: nat, env: nat -> Grab)
    requires c <= |d.chans| && refCount > 0 && forall i: nat :: env(i) == Granted
    ensures var (r, ok) := GetFrom(d, c, refCount, env);
            && ok && |r.chans| == |d.chans| && r.isPrivate == d.isPrivate
            && (forall i :: 0 <= i < c ==> r.chans[i] == d.chans[i])
            && (forall i :: c <= i < |r.chans| ==> r.chans[i].clients > 0)
    decreases |d.chans| - c
  {
    if c < |d.chans| {
      var d1 := ChanGet(d, c, refCount, env(c)).0;
      GetFromTakes(d1, c + 1, refCount, env);
      assert GetFrom(d, c, refCount, env).0.chans[c] == d1.chans[c];
    }
  }

  /** All channels of the device have clients, if it is public. */
  predicate Taken(d: Device) {
    d.isPrivate || forall c :: 0 <= c < |d.chans| ==> d.chans[c].clients > 0
  }

  lemma {:induction false} GetAllTakes(devs: seq<Device>, list: seq<nat>, refCount: nat, env: DriverAnswers)
    requires Listed(devs, list) && Distinct(list) && refCount > 0 && Willing(env)
    ensures var r := GetAll(devs, list, refCount, env);
            && r.1 == list && (forall i :: 0 <= i < |devs| && i !in list ==> r.0[i] == devs[i])
            && (forall i :: 0 <= i < |devs| && i in list ==> Taken(r.0[i]))
    decreases |list|
  {
    if list != [] {
      var dev := list[0];
      if !devs[dev].isPrivate { GetFromTakes(devs[dev], 0, refCount, (c: nat) => env(Id(dev, c))); }
      var d := GetDevice(devs[dev], dev, refCount, env).0;
      assert Taken(d);
      assert dev !in list[1..];
      hide Taken, GetDevice;
      GetAllTakes(devs[dev := d], list[1..], refCount, env);
      assert [dev] + list[1..] == list;
    }
  }

  /** A public device whose module turns out to be gone, at its first channel, leaves the list. */
  lemma {:induction false} GoneLeaves(devs: seq<Device>, list: seq<nat>, refCount: nat, env: DriverAnswers, dev: nat)
    requires Listed(devs, list) && Distinct(list) && dev in list
    requires !devs[dev].isPrivate && |devs[dev].chans| > 0 && devs[dev].chans[0].clients == 0 && env(Id(dev, 0)) == NoModule
    ensures dev !in GetAll(devs, list, refCount, env).1
    decreases |list|
  {
    var (d, ok) := GetDevice(devs[list[0]], list[0], refCount, env);
    var devs1 := devs[list[0] := d];
    if dev == list[0] {
      assert dev !in list[1..];
      OnlyListed(devs1, list[1..], refCount, env);
    } else {
      GoneLeaves(devs1, list[1..], refCount, env, dev);
    }
  }

  lemma {:induction false} OnlyListed(devs: seq<Device>, list: seq<nat>, refCount: nat, env: DriverAnswers)
    requires Listed(devs, list)
    ensures forall i :: i in GetAll(devs, list, refCount, env).1 ==> i in list
    decreases |list|
  {
    if list != [] {
      var d := GetDevice(devs[list[0]], list[0], refCount, env).0;
      OnlyListed(devs[list[0] := d], list[1..], refCount, env);
    }
  }

  /** The same for a request that comes to such a device. */
  lemma GoneLeavesRequest(devs: seq<Device>, list: seq<nat>, i: nat, mask: set<nat>, fn: Id -> bool, refCount: nat,
                          env: DriverAnswers)
    requires Listed(devs, list) && Distinct(list) && i < |list|
    requires Candidate(devs[list[i]], mask, (c: nat) => fn(Id(list[i], c))).Some?
    requires forall c: nat :: env(Id(list[i], c)) == NoModule
    ensures list[i] !in RequestFrom(devs, list, i, mask, fn, refCount, env).list
  {
    var dev := list[i];
    var c := Candidate(devs[dev], mask, (c: nat) => fn(Id(dev, c))).value;
    CandidateExact(devs[dev], mask, (c: nat) => fn(Id(dev, c)));
    var d := TryExclusive(devs[dev], c, refCount, NoModule).0;
    WithoutOne(list, i);
    RequestKeepsOut(devs[dev := d], list[..i] + list[i + 1..], i, mask, fn, refCount, env);
  }

  lemma {:induction false} RequestKeepsOut(devs: seq<Device>, list: seq<nat>, i: nat, mask: set<nat>, fn: Id -> bool,
                                           refCount: nat, env: DriverAnswers)
    requires Listed(devs, list) && i <= |list|
    ensures forall x :: x in RequestFrom(devs, list, i, mask, fn, refCount, env).list ==> x in list
    decreases |list| - i
  {
    if i < |list| {
      hide Candidate, TryExclusive;
      var dev := list[i];
      match Candidate(devs[dev], mask, (c: nat) => fn(Id(dev, c)))
      case None => RequestKeepsOut(devs, list, i + 1, mask, fn, refCount, env);
      case Some(c) =>
        if c < |devs[dev].chans| {
          var (d, o) := TryExclusive(devs[dev], c, refCount, env(Id(dev, c)));
          if o == NoDevice {
            RequestKeepsOut(devs[dev := d], list[..i] + list[i + 1..], i, mask, fn, refCount, env);
          } else if o == Failed {
            RequestKeepsOut(devs[dev := d], list, i + 1, mask, fn, refCount, env);
          }
        }
    }
  }

  /** With willing drivers dmaengine_get leaves every channel of every listed public device with one
      reference per public user. */
  lemma GetTheorem(e: Engine, env: DriverAnswers, dev: nat, c: nat)
    requires Inv(e) && Willing(env) && dev in e.list
    ensures dev < |e.devs|
    ensures var e' := Get(e, env);
            && e'.list == e.list && e'.refCount == e.refCount + 1 && dev < |e'.devs|
            && (!e'.devs[dev].isPrivate && c < |e'.devs[dev].chans| ==> e'.devs[dev].chans[c].clients == e'.refCount)
  {
    GetAllTakes(e.devs, e.list, e.refCount + 1, env);
    GetWalk(e, env);
    var (devs, list) := GetAll(e.devs, e.list, e.refCount + 1, env);
    var e1 := e.(devs := devs, list := list, refCount := e.refCount + 1);
    assert dev < |e.devs|;
    assert Taken(devs[dev]) && DeviceOk(devs[dev], dev in list, e.refCount + 1);
    hide GetAll, Inv, DevicesOk, HeldOk, TablePublic, Rebalance;
    if e1.refCount == 1 {
      RebalancePublic(devs, list, e1.refCount, e.online, e.smp);
      var d, d' := devs[dev], Rebalanced(e1).devs[dev];
      assert SameDevice(d, d');
      if c < |d.chans| { assert SameChan(d.chans[c], d'.chans[c]); }
    }
  }

  /** dmaengine_put takes one reference from each channel of a listed public device that has any. */
  lemma {:induction false} PutFromTakes(d: Device, c: nat, i: nat)
    requires c <= |d.chans| && i < |d.chans|
    ensures |PutFrom(d, c).chans| == |d.chans|
    ensures PutFrom(d, c).chans[i].clients == if i < c || d.chans[i].clients == 0 then d.chans[i].clients else d.chans[i].clients - 1
    decreases |d.chans| - c
  {
    if c < |d.chans| { PutFromTakes(ChanPut(d, c), c + 1, i); }
  }

  // ----- drivers

  /** A new device is listed with its capabilities and channels, unless the driver's module goes away. */
  lemma RegisterTheorem(e: Engine, caps: set<nat>, priv: bool, chans: nat, env: DriverAnswers)
    requires Inv(e) && (priv || e.refCount == 0 || Willing(env))
    ensures var e', dev := Register(e, caps, priv, chans, env), |e.devs|;
            && e'.list == e.list + [dev] && |e'.devs| == dev + 1
            && e'.devs[dev].caps == caps && |e'.devs[dev].chans| == chans && e'.devs[dev].isPrivate == priv
            && (!priv ==> forall c :: 0 <= c < chans ==> e'.devs[dev].chans[c].clients == e.refCount)
  {
    hide Inv, Register, GetFrom;
    var dev, d := |e.devs|, NewDevice(caps, priv, chans);
    if e.refCount > 0 && !priv {
      NewTaken(caps, chans, e.refCount, (c: nat) => env(Id(dev, c)));
    }
    RegisterParts(e, caps, priv, chans, env);
  }

  /** The references of a new public device. */
  lemma NewTaken(caps: set<nat>, chans: nat, refCount: nat, env: nat -> Grab)
    requires refCount > 0 && forall c: nat :: env(c) == Granted
    ensures var (r, ok) := GetFrom(NewDevice(caps, false, chans), 0, refCount, env);
            && ok && r.caps == caps && |r.chans| == chans && !r.isPrivate
            && forall c :: 0 <= c < chans ==> r.chans[c].clients == refCount
  {
    var d := NewDevice(caps, false, chans);
    NewDeviceOk(caps, false, chans, refCount);
    GetFromTakes(d, 0, refCount, env);
    GetFromOk(d, 0, refCount, env);
    KeepsCaps(d, 0, refCount, env);
    hide GetFrom, Counted;
  }

  lemma {:induction false} KeepsCaps(d: Device, c: nat, refCount: nat, env: nat -> Grab)
    requires c <= |d.chans|
    ensures GetFrom(d, c, refCount, env).0.caps == d.caps
    decreases |d.chans| - c
  {
    if c < |d.chans| {
      var (d1, o) := ChanGet(d, c, refCount, env(c));
      if o != NoDevice { KeepsCaps(d1, c + 1, refCount, env); }
    }
  }

  /** The device as registered; a rebalance changes table counts only. */
  lemma RegisterParts(e: Engine, caps: set<nat>, priv: bool, chans: nat, env: DriverAnswers)
    requires Inv(e)
    ensures var dev, d := |e.devs|, NewDevice(caps, priv, chans);
            var (d1, ok) := if e.refCount > 0 && !priv then GetFrom(d, 0, e.refCount, (c: nat) => env(Id(dev, c)))
                            else (d, true);
            var d2 := if priv then d1.(privateCnt := d1.privateCnt + 1) else d1;
            var e' := Register(e, caps, priv, chans, env);
            ok ==> e'.list == e.list + [dev] && |e'.devs| == dev + 1 && SameDevice(d2, e'.devs[dev])
                   && forall c :: 0 <= c < |d2.chans| ==> d2.chans[c].clients == e'.devs[dev].chans[c].clients
  {
    hide GetFrom, DevicesOk, HeldOk, TablePublic, Rebalance, NewDevice;
    var dev, d := |e.devs|, NewDevice(caps, priv, chans);
    var (d1, ok) := if e.refCount > 0 && !priv then GetFrom(d, 0, e.refCount, (c: nat) => env(Id(dev, c)))
                    else (d, true);
    var d2 := if priv then d1.(privateCnt := d1.privateCnt + 1) else d1;
    var e1 := e.(devs := e.devs + [d2], list := e.list + [dev]);
    assert Wf(e1);
    RebalancePublic(e1.devs, e1.list, e1.refCount, e1.online, e1.smp);
    assert SameDevice(e1.devs[dev], Rebalanced(e1).devs[dev]);
    forall c | 0 <= c < |d2.chans| ensures SameChan(d2.chans[c], Rebalanced(e1).devs[dev].chans[c]) {}
  }

  /** An unregistered device is off the list, and off the table; the others stay where they are. */
  lemma UnregisterTheorem(e: Engine, dev: nat)
    requires Inv(e) && dev < |e.devs|
    ensures var e' := Unregister(e, dev);
            && (forall i :: i in e'.list <==> i in e.list && i != dev)
            && (forall i :: 0 <= i < |e'.table| && e'.table[i].Some? ==> e'.table[i].value.dev != dev)
  {
    WithoutIs(e.list, dev);
    var e1 := e.(list := Without(e.list, dev));
    hide Without, DevicesOk, HeldOk, TablePublic, Slots, Usable;
    forall i | 0 <= i < |e1.list| ensures e1.list[i] < |e.devs| {
      assert e1.list[i] in e1.list && e1.list[i] in e.list;
    }
    assert Wf(e1);
    var t := Rebalanced(e1).table;
    forall i | 0 <= i < |t| && t[i].Some? ensures t[i].value.dev != dev {
      RebalanceServes(e1.devs, e1.list, e1.refCount, e1.online, e1.smp, i);
    }
  }

  // ----- the table

  /** Every entry of the table serves its CPU and operation, if any channel in use can. */
  ghost predicate Fresh(e: Engine) {
    var slots := Slots(TABLE_CAPS, e.online);
    e.refCount > 0 ==>
      |e.table| == |slots| && forall i :: 0 <= i < |slots| ==> EntryServes(e.devs, e.list, slots[i], e.table[i])
  }

  lemma RebalancedFresh(e: Engine)
    requires Wf(e)
    ensures Fresh(Rebalanced(e))
  {
    hide Rebalance, Slots, EntryServes, Same, Listed, Distinct;
    var e' := Rebalanced(e);
    var slots := Slots(TABLE_CAPS, e.online);
    RebalancePublic(e.devs, e.list, e.refCount, e.online, e.smp);
    SameBack(e.devs, e'.devs);
    AllServe(e.devs, e.list, e.refCount, e.online, e.smp);
    forall i | e.refCount > 0 && 0 <= i < |slots| ensures EntryServes(e'.devs, e'.list, slots[i], e'.table[i]) {
      SameServes(e'.devs, e.devs, e.list, slots[i], e'.table[i]);
    }
  }

  lemma SameBack(a: seq<Device>, b: seq<Device>)
    requires Same(a, b)
    ensures Same(b, a)
  {
    forall i | 0 <= i < |a| ensures SameDevice(b[i], a[i]) {
      assert SameDevice(a[i], b[i]);
      forall j | 0 <= j < |a[i].chans| ensures SameChan(b[i].chans[j], a[i].chans[j]) {
        assert SameChan(a[i].chans[j], b[i].chans[j]);
      }
    }
  }

  lemma GetFresh(e: Engine, env: DriverAnswers)
    requires Inv(e) && e.refCount == 0
    ensures Fresh(Get(e, env))
  {
    GetWalk(e, env);
    var (devs, list) := GetAll(e.devs, e.list, 1, env);
    var e1 := e.(devs := devs, list := list, refCount := 1);
    hide Fresh, Rebalanced, GetAll, Listed, Distinct, TablePublic, HeldOk, DevicesOk;
    assert Wf(e1);
    RebalancedFresh(e1);
  }

  lemma RegisterFresh(e: Engine, caps: set<nat>, priv: bool, chans: nat, env: DriverAnswers)
    requires Inv(e)
    ensures Fresh(Register(e, caps, priv, chans, env)) || Register(e, caps, priv, chans, env).list == e.list
  {
    hide Fresh, Rebalanced, GetFrom, TablePublic, HeldOk, DevicesOk, NewDevice;
    var dev, d := |e.devs|, NewDevice(caps, priv, chans);
    var (d1, ok) := if e.refCount > 0 && !priv then GetFrom(d, 0, e.refCount, (c: nat) => env(Id(dev, c)))
                    else (d, true);
    var d2 := if priv then d1.(privateCnt := d1.privateCnt + 1) else d1;
    var e1 := e.(devs := e.devs + [d2], list := e.list + [dev]);
    assert Wf(e1);
    RebalancedFresh(e1);
  }

  lemma UnregisterFresh(e: Engine, dev: nat)
    requires Inv(e)
    ensures Fresh(Unregister(e, dev))
  {
    WithoutIs(e.list, dev);
    hide Fresh, Rebalanced, Without, TablePublic, HeldOk, DevicesOk;
    var e1 := e.(list := Without(e.list, dev));
    forall i | 0 <= i < |e1.list| ensures e1.list[i] < |e.devs| { assert e1.list[i] in e.list; }
    assert Wf(e1);
    RebalancedFresh(e1);
  }

  /** The first public user, a driver that comes and a driver that goes leave a table that serves. */
  lemma FreshTheorem(e: Engine)
    requires Inv(e)
    ensures Wf(e)
    ensures forall env :: e.refCount == 0 ==> Fresh(Get(e, env))
    ensures forall caps, priv, chans, env :: Fresh(Register(e, caps, priv, chans, env))
              || Register(e, caps, priv, chans, env).list == e.list
    ensures forall dev :: Fresh(Unregister(e, dev))
  {
    assert Wf(e);
    hide Fresh, Rebalanced, Inv, Wf;
    forall env | e.refCount == 0 ensures Fresh(Get(e, env)) { GetFresh(e, env); }
    forall caps, priv, chans, env
      ensures Fresh(Register(e, caps, priv, chans, env)) || Register(e, caps, priv, chans, env).list == e.list
    {
      RegisterFresh(e, caps, priv, chans, env);
    }
    forall dev ensures Fresh(Unregister(e, dev)) { UnregisterFresh(e, dev); }
  }

  // ----- the shared policy

  /** While the table is fresh, every online CPU whose policy is in use is given a channel that can do
      memcpy, if a listed public device has one with clients and alignment does not stand against it. */
  lemma SharedGetsChannel(e: Engine, cpu: nat, aligned: Id -> bool, id: Id)
    requires Fresh(e) && e.refCount > 0 && e.copyRef > 0 && cpu < e.online && (forall x :: aligned(x))
    requires Usable(e.devs, e.list, MEMCPY, id)
    ensures var chan := SharedChannel(e, e, cpu, aligned);
            chan.Some? && Usable(e.devs, e.list, MEMCPY, chan.value)
  {
    var slots := Slots(TABLE_CAPS, e.online);
    assert TABLE_CAPS[0] == MEMCPY && slots[cpu] == MEMCPY && cpu < |slots|;
    hide Slots;
    assert EntryServes(e.devs, e.list, slots[cpu], e.table[cpu]);
    assert Usable(e.devs, e.list, MEMCPY, Id(id.dev, id.chan));
  }
}
