/**
 Every operation of the DMA engine keeps its invariant, and what follows for its users.
 */
module DmaEngineProof {
  import opened DmaDevices
  import opened DmaTable
  import opened DmaEngineRun

  /** `b` differs from `a` by public references only: same kind of device, exclusive channels
      untouched, table entries still good. */
  ghost predicate Kept(a: Device, b: Device) {
    && a.isPrivate == b.isPrivate && |a.chans| == |b.chans|
    && (a.isPrivate ==> a == b)
  }

  ghost predicate KeepsPublic(a: Device, b: Device) {
    forall c :: Public(a, c) ==> Public(b, c)
  }

  // ----- get

  lemma GetDeviceOk(d: Device, dev: nat, refCount: nat, env: DriverAnswers)
    requires refCount > 0 && DeviceOk(d, true, refCount - 1)
    ensures var (r, ok) := GetDevice(d, dev, refCount, env);
            && Kept(d, r) && KeepsPublic(d, r) && Counted(r) && (ok ==> DeviceOk(r, true, refCount))
  {
    if !d.isPrivate {
      assert Levelled(d.chans, 0, refCount, refCount - 1);
      GetFromOk(d, 0, refCount, (c: nat) => env(Id(dev, c)));
    }
  }

  /** What one pass over the list guarantees. */
  ghost predicate Passed(devs: seq<Device>, list: seq<nat>, devs2: seq<Device>, list2: seq<nat>, refCount: nat) {
    && |devs2| == |devs|
    && (forall i :: 0 <= i < |devs| ==> Kept(devs[i], devs2[i]))
    && (forall i :: 0 <= i < |devs| ==> KeepsPublic(devs[i], devs2[i]))
    && (forall i :: 0 <= i < |devs| && i !in list ==> devs2[i] == devs[i])
    && (forall i :: 0 <= i < |devs| && i in list ==> DeviceOk(devs2[i], i in list2, refCount))
    && (forall i :: i in list2 ==> i in list) && Distinct(list2)
  }

  lemma {:induction false} GetAllOk(devs: seq<Device>, list: seq<nat>, refCount: nat, env: DriverAnswers)
    requires Listed(devs, list) && Distinct(list) && refCount > 0
    requires forall i :: 0 <= i < |list| ==> DeviceOk(devs[list[i]], true, refCount - 1)
    ensures var (devs2, list2) := GetAll(devs, list, refCount, env);
            Passed(devs, list, devs2, list2, refCount)
    decreases |list|
  {
    if list != [] {
      var dev, rest := list[0], list[1..];
      assert dev !in rest;
      var (d, ok) := GetDevice(devs[dev], dev, refCount, env);
      GetDeviceOk(devs[dev], dev, refCount, env);
      var devs1 := devs[dev := d];
      GetAllOk(devs1, rest, refCount, env);
      var (devs2, list2) := GetAll(devs1, rest, refCount, env);
      PassOne(devs, devs1, list, devs2, list2, refCount, ok);
    }
  }

  lemma PassOne(devs: seq<Device>, devs1: seq<Device>, list: seq<nat>, devs2: seq<Device>, list2: seq<nat>,
                refCount: nat, ok: bool)
    requires list != [] && Distinct(list) && list[0] < |devs| && |devs1| == |devs|
    requires devs1 == devs[list[0] := devs1[list[0]]]
    requires Kept(devs[list[0]], devs1[list[0]]) && KeepsPublic(devs[list[0]], devs1[list[0]])
    requires Counted(devs1[list[0]]) && (ok ==> DeviceOk(devs1[list[0]], true, refCount))
    requires Passed(devs1, list[1..], devs2, list2, refCount)
    ensures Passed(devs, list, devs2, if ok then [list[0]] + list2 else list2, refCount)
  {
    var dev := list[0];
    assert dev !in list[1..] && dev !in list2;
    assert devs2[dev] == devs1[dev];
    assert forall i :: i in list <==> i == dev || i in list[1..];
    hide Kept, KeepsPublic, DeviceOk;
    assert DeviceOk(devs2[dev], ok, refCount) by { NotListed(devs1[dev], ok, refCount); }
  }

  lemma NotListed(d: Device, ok: bool, refCount: nat)
    requires Counted(d) && (ok ==> DeviceOk(d, true, refCount))
    ensures DeviceOk(d, ok, refCount)
  {}

  /** Exclusive channels and the bookkeeping of holders survive a pass. */
  lemma HeldKept(devs: seq<Device>, devs2: seq<Device>, held: set<Id>)
    requires |devs2| == |devs| && HeldOk(devs, held)
    requires forall i :: 0 <= i < |devs| ==> Kept(devs[i], devs2[i])
    ensures HeldOk(devs2, held)
  {}

  lemma TableKept(devs: seq<Device>, devs2: seq<Device>, t: seq<Option<Id>>)
    requires |devs2| == |devs| && TablePublic(devs, t)
    requires forall i :: 0 <= i < |devs| ==> Kept(devs[i], devs2[i])
    requires forall i :: 0 <= i < |devs| ==> KeepsPublic(devs[i], devs2[i])
    ensures TablePublic(devs2, t)
  {
    forall i | 0 <= i < |t| && t[i].Some? ensures PublicId(devs2, t[i].value) {
      assert PublicId(devs, t[i].value);
      assert KeepsPublic(devs[t[i].value.dev], devs2[t[i].value.dev]);
    }
  }

  lemma {:induction false} SameSum(a: seq<Chan>, b: seq<Chan>)
    requires |a| == |b| && forall i :: 0 <= i < |a| ==> SameChan(a[i], b[i])
    ensures Sum(a) == Sum(b)
  {
    if a != [] {
      SameSum(a[..|a| - 1], b[..|b| - 1]);
      assert SameChan(a[|a| - 1], b[|b| - 1]);
    }
  }

  lemma SameDeviceOk(a: Device, b: Device, listed: bool, refCount: nat)
    requires SameDevice(a, b) && DeviceOk(a, listed, refCount)
    ensures DeviceOk(b, listed, refCount)
  {
    SameSum(a.chans, b.chans);
    assert forall i :: 0 <= i < |a.chans| ==> SameChan(a.chans[i], b.chans[i]);
  }

  /** A rebalance touches no reference count and leaves a good table. */
  lemma RebalancedInv(e: Engine)
    requires Wf(e) && DevicesOk(e.devs, e.list, e.refCount) && HeldOk(e.devs, e.held) && UsersOk(e)
    ensures Inv(Rebalanced(e))
  {
    hide Rebalance, TablePublic, DeviceOk, UsersOk;
    RebalancePublic(e.devs, e.list, e.refCount, e.online, e.smp);
    var e' := Rebalanced(e);
    forall i | 0 <= i < |e.devs| ensures DeviceOk(e'.devs[i], i in e.list, e.refCount) {
      SameDeviceOk(e.devs[i], e'.devs[i], i in e.list, e.refCount);
    }
    assert Wf(e') && HeldOk(e'.devs, e.held) by { SameHeld(e.devs, e'.devs, e.held); }
    assert UsersOk(e') by { SameUsers(e, e'); }
  }

  lemma SameUsers(e: Engine, e': Engine)
    requires UsersOk(e) && e' == e.(devs := e'.devs, list := e'.list, table := e'.table, held := e'.held)
    ensures UsersOk(e')
  {}

  lemma SameHeld(a: seq<Device>, b: seq<Device>, held: set<Id>)
    requires Same(a, b) && HeldOk(a, held)
    ensures HeldOk(b, held) && forall id :: id in held ==> Valid(b, id)
  {
    forall id ensures (Valid(a, id) && Exclusive(a[id.dev], id.chan)) <==> (Valid(b, id) && Exclusive(b[id.dev], id.chan)) {
      if id.dev < |a| && id.chan < |a[id.dev].chans| {
        assert SameDevice(a[id.dev], b[id.dev]);
        assert SameChan(a[id.dev].chans[id.chan], b[id.dev].chans[id.chan]);
      } else if id.dev < |a| {
        assert SameDevice(a[id.dev], b[id.dev]);
      }
    }
  }

  /** The state after dmaengine_get has walked the list, before it rebalances. */
  lemma GetWalk(e: Engine, env: DriverAnswers)
    requires Inv(e)
    ensures var (devs, list) := GetAll(e.devs, e.list, e.refCount + 1, env);
            && Listed(devs, list) && Distinct(list) && DevicesOk(devs, list, e.refCount + 1)
            && HeldOk(devs, e.held) && (forall id :: id in e.held ==> Valid(devs, id))
            && (e.refCount > 0 ==> TablePublic(devs, e.table))
  {
    hide TablePublic, HeldOk, DeviceOk, Kept, KeepsPublic;
    forall i | 0 <= i < |e.list| ensures DeviceOk(e.devs[e.list[i]], true, e.refCount) {
      assert DeviceOk(e.devs[e.list[i]], e.list[i] in e.list, e.refCount);
    }
    GetAllOk(e.devs, e.list, e.refCount + 1, env);
    var (devs, list) := GetAll(e.devs, e.list, e.refCount + 1, env);
    forall i | 0 <= i < |devs| ensures DeviceOk(devs[i], i in list, e.refCount + 1) {
      if i !in e.list {
        assert DeviceOk(e.devs[i], false, e.refCount);
        Unlisted(devs[i], e.refCount, e.refCount + 1);
      }
    }
    forall i | 0 <= i < |list| ensures list[i] < |devs| {
      assert list[i] in list && list[i] in e.list;
    }
    HeldKept(e.devs, devs, e.held);
    HeldValid(devs, e.held);
    if e.refCount > 0 { TableKept(e.devs, devs, e.table); }
  }

  lemma HeldValid(devs: seq<Device>, held: set<Id>)
    requires HeldOk(devs, held)
    ensures forall id :: id in held ==> Valid(devs, id)
  {}

  lemma Unlisted(d: Device, m: nat, n: nat)
    requires DeviceOk(d, false, m)
    ensures DeviceOk(d, false, n)
  {}

  /** dmaengine_get before it rebalances, for a user or for the copy policy. */
  function Walked(e: Engine, env: DriverAnswers, users: nat, copyGets: nat): Engine
    requires Wf(e)
  {
    var (devs, list) := GetAll(e.devs, e.list, e.refCount + 1, env);
    e.(devs := devs, list := list, refCount := e.refCount + 1, users := users, copyGets := copyGets)
  }

  lemma WalkedOk(e: Engine, env: DriverAnswers, users: nat, copyGets: nat)
    requires Inv(e) && users + copyGets == e.users + e.copyGets + 1
    ensures var w := Walked(e, env, users, copyGets);
            && Wf(w) && DevicesOk(w.devs, w.list, w.refCount) && HeldOk(w.devs, w.held) && UsersOk(w)
            && (e.refCount > 0 ==> TablePublic(w.devs, w.table))
  {
    hide GetAll, DevicesOk, HeldOk, TablePublic, Listed, Distinct, Valid;
    GetWalk(e, env);
  }

  lemma GetIs(e: Engine, env: DriverAnswers, users: nat, copyGets: nat)
    requires Wf(e) && Wf(Walked(e, env, users, copyGets))
    ensures var w := Walked(e, env, users, copyGets);
            Get(e, env).(users := users, copyGets := copyGets) == if e.refCount == 0 then Rebalanced(w) else w
  {
    hide GetAll, Rebalanced, Listed, Distinct, Valid;
    var (devs, list) := GetAll(e.devs, e.list, e.refCount + 1, env);
    RebalancedUsers(e.(devs := devs, list := list, refCount := e.refCount + 1), users, copyGets);
  }

  lemma GetInv(e: Engine, env: DriverAnswers, users: nat, copyGets: nat)
    requires Inv(e)
    requires users + copyGets == e.users + e.copyGets + 1
    ensures Inv(Get(e, env).(users := users, copyGets := copyGets))
  {
    hide Walked, Get, Wf, DevicesOk, HeldOk, TablePublic, UsersOk, Rebalanced;
    var w := Walked(e, env, users, copyGets);
    WalkedOk(e, env, users, copyGets);
    GetIs(e, env, users, copyGets);
    if e.refCount == 0 {
      RebalancedInv(w);
    } else {
      assert w.refCount > 0 ==> TablePublic(w.devs, w.table);
    }
  }

  lemma RebalancedUsers(e: Engine, users: nat, copyGets: nat)
    requires Wf(e)
    ensures Rebalanced(e).(users := users, copyGets := copyGets)
            == Rebalanced(e.(users := users, copyGets := copyGets))
  {}

  // ----- put

  lemma PutDeviceOk(d: Device, refCount: nat)
    requires DeviceOk(d, true, refCount + 1)
    ensures Kept(d, PutDevice(d)) && DeviceOk(PutDevice(d), true, refCount)
    ensures refCount > 0 ==> KeepsPublic(d, PutDevice(d))
  {
    if !d.isPrivate {
      assert Levelled(d.chans, 0, refCount, refCount + 1);
      PutFromOk(d, 0, refCount);
    }
  }

  lemma {:induction false} PutAllOk(devs: seq<Device>, list: seq<nat>, refCount: nat)
    requires Listed(devs, list) && Distinct(list)
    requires forall i :: 0 <= i < |list| ==> DeviceOk(devs[list[i]], true, refCount + 1)
    ensures var devs2 := PutAll(devs, list);
            && (forall i :: 0 <= i < |devs| ==> Kept(devs[i], devs2[i]))
            && (refCount > 0 ==> forall i :: 0 <= i < |devs| ==> KeepsPublic(devs[i], devs2[i]))
            && (forall i :: 0 <= i < |devs| && i !in list ==> devs2[i] == devs[i])
            && (forall i :: 0 <= i < |devs| && i in list ==> DeviceOk(devs2[i], true, refCount))
    decreases |list|
  {
    if list != [] {
      var dev := list[0];
      assert dev !in list[1..];
      PutDeviceOk(devs[dev], refCount);
      hide DeviceOk, PutDevice;
      PutAllOk(devs[dev := PutDevice(devs[dev])], list[1..], refCount);
    }
  }

  lemma PutInv(e: Engine, users: nat, copyPuts: nat)
    requires Inv(e) && e.refCount > 0
    requires copyPuts <= e.copyRef && users + e.copyPuts + 1 == e.users + copyPuts
    ensures Inv(Put(e).(users := users, copyPuts := copyPuts))
  {
    hide TablePublic, HeldOk, DeviceOk, Kept, KeepsPublic;
    var n := e.refCount - 1;
    forall i | 0 <= i < |e.list| ensures DeviceOk(e.devs[e.list[i]], true, n + 1) {
      assert DeviceOk(e.devs[e.list[i]], e.list[i] in e.list, e.refCount);
    }
    PutAllOk(e.devs, e.list, n);
    var devs := PutAll(e.devs, e.list);
    forall i | 0 <= i < |devs| ensures DeviceOk(devs[i], i in e.list, n) {
      if i !in e.list {
        assert DeviceOk(e.devs[i], false, e.refCount);
        Unlisted(devs[i], e.refCount, n);
      }
    }
    HeldKept(e.devs, devs, e.held);
    HeldValid(devs, e.held);
    if n > 0 { TableKept(e.devs, devs, e.table); }
  }

  // ----- exclusive users

  ghost predicate RequestOk(devs: seq<Device>, list: seq<nat>, refCount: nat, r: Request) {
    && |r.devs| == |devs| && Listed(r.devs, r.list) && Distinct(r.list)
    && DevicesOk(r.devs, r.list, refCount)
    && (forall id :: Valid(r.devs, id) <==> Valid(devs, id))
    && (forall id :: PublicId(devs, id) ==> PublicId(r.devs, id))
    && (r.chan.Some? ==> Valid(devs, r.chan.value)
                         && Exclusive(r.devs[r.chan.value.dev], r.chan.value.chan))
    && (forall id :: Valid(devs, id) && r.chan != Some(id) ==>
          (Exclusive(r.devs[id.dev], id.chan) <==> Exclusive(devs[id.dev], id.chan)))
  }

  lemma Dropped(devs: seq<Device>, list: seq<nat>, i: nat, refCount: nat)
    requires Listed(devs, list) && Distinct(list) && DevicesOk(devs, list, refCount) && i < |list|
    ensures var l := list[..i] + list[i + 1..];
            Listed(devs, l) && Distinct(l) && DevicesOk(devs, l, refCount)
  {
    var l := list[..i] + list[i + 1..];
    assert forall j :: j in l ==> j in list;
    forall j | 0 <= j < |devs| ensures DeviceOk(devs[j], j in l, refCount) {
      assert DeviceOk(devs[j], j in list, refCount);
    }
  }

  /** The device that yields the channel: only that channel becomes exclusive, and no channel that
      was public is lost, because the device had none. */
  lemma RequestHit(devs: seq<Device>, list: seq<nat>, dev: nat, c: nat, refCount: nat, mask: set<nat>,
                   fn: nat -> bool, g: Grab)
    requires Listed(devs, list) && Distinct(list) && DevicesOk(devs, list, refCount) && dev < |devs|
    requires Candidate(devs[dev], mask, fn) == Some(c)
    ensures c < |devs[dev].chans|
    ensures var (d, o) := TryExclusive(devs[dev], c, refCount, g);
            && (o != Ok ==> devs[dev := d] == devs)
            && (o == Ok ==> RequestOk(devs, list, refCount, Request(devs[dev := d], list, Some(Id(dev, c)))))
  {
    assert DeviceOk(devs[dev], dev in list, refCount);
    TryExclusiveOk(devs[dev], mask, fn, c, refCount, g, dev in list);
    hide TryExclusive, DeviceOk, Exclusive, Candidate;
    var (d, o) := TryExclusive(devs[dev], c, refCount, g);
    if o == Ok {
      var r := Request(devs[dev := d], list, Some(Id(dev, c)));
      forall id | PublicId(devs, id) ensures PublicId(r.devs, id) {
        assert id.dev != dev;
      }
    }
  }

  lemma NoHit(devs: seq<Device>, list: seq<nat>, refCount: nat)
    requires Listed(devs, list) && Distinct(list) && DevicesOk(devs, list, refCount)
    ensures RequestOk(devs, list, refCount, Request(devs, list, None))
  {}

  lemma {:induction false} RequestFromOk(devs: seq<Device>, list: seq<nat>, i: nat, mask: set<nat>, fn: Id -> bool,
                                         refCount: nat, env: DriverAnswers)
    requires Listed(devs, list) && Distinct(list) && DevicesOk(devs, list, refCount) && i <= |list|
    ensures RequestOk(devs, list, refCount, RequestFrom(devs, list, i, mask, fn, refCount, env))
    decreases |list| - i
  {
    hide DevicesOk, RequestOk, Candidate, TryExclusive, Distinct;
    if i == |list| {
      NoHit(devs, list, refCount);
    } else {
      var dev := list[i];
      var f := (c: nat) => fn(Id(dev, c));
      match Candidate(devs[dev], mask, f)
      case None => RequestFromOk(devs, list, i + 1, mask, fn, refCount, env);
      case Some(c) =>
        RequestHit(devs, list, dev, c, refCount, mask, f, env(Id(dev, c)));
        var (d, o) := TryExclusive(devs[dev], c, refCount, env(Id(dev, c)));
        if o == NoDevice {
          Dropped(devs, list, i, refCount);
          RequestFromOk(devs, list[..i] + list[i + 1..], i, mask, fn, refCount, env);
          ShorterList(devs, list, list[..i] + list[i + 1..], refCount,
                      RequestFrom(devs, list[..i] + list[i + 1..], i, mask, fn, refCount, env));
        } else if o == Failed {
          RequestFromOk(devs, list, i + 1, mask, fn, refCount, env);
        }
    }
  }

  lemma ShorterList(devs: seq<Device>, list: seq<nat>, l: seq<nat>, refCount: nat, r: Request)
    requires RequestOk(devs, l, refCount, r)
    ensures RequestOk(devs, list, refCount, r)
  {}

  lemma RequestInv(e: Engine, mask: set<nat>, fn: Id -> bool, env: DriverAnswers)
    requires Inv(e)
    ensures Inv(RequestChannel(e, mask, fn, env))
  {
    RequestFromOk(e.devs, e.list, 0, mask, fn, e.refCount, env);
    hide RequestFrom, DevicesOk;
    var r := RequestFrom(e.devs, e.list, 0, mask, fn, e.refCount, env);
    var e' := RequestChannel(e, mask, fn, env);
    assert UsersOk(e');
    assert HeldOk(e'.devs, e'.held);
    if e.refCount > 0 {
      forall i | 0 <= i < |e.table| && e.table[i].Some? ensures PublicId(e'.devs, e.table[i].value) {
        assert PublicId(e.devs, e.table[i].value);
      }
    }
  }

  lemma ReleaseInv(e: Engine, id: Id)
    requires Inv(e) && id in e.held
    ensures Inv(ReleaseChannel(e, id))
  {
    var d := e.devs[id.dev];
    assert DeviceOk(d, id.dev in e.list, e.refCount);
    ReleaseOk(d, id.chan, e.refCount, id.dev in e.list);
    var e' := ReleaseChannel(e, id);
    hide DmaDevices.Release, DeviceOk;
    assert DevicesOk(e'.devs, e'.list, e'.refCount);
    assert UsersOk(e');
    if e.refCount > 0 {
      forall i | 0 <= i < |e.table| && e.table[i].Some? ensures PublicId(e'.devs, e.table[i].value) {
        assert PublicId(e.devs, e.table[i].value);
        assert e.table[i].value.dev != id.dev;
      }
    }
  }

  // ----- drivers

  lemma NewDeviceOk(caps: set<nat>, priv: bool, chans: nat, refCount: nat)
    ensures var d := NewDevice(caps, priv, chans);
            && Sum(d.chans) == 0 && |d.chans| == chans
            && (!priv ==> Counted(d) && (refCount > 0 ==> Levelled(d.chans, 0, refCount, refCount - 1)) && Levelled(d.chans, 0, 0, refCount))
            && (priv ==> DeviceOk(d.(privateCnt := 1), true, refCount))
            && d.isPrivate == priv && d.privateCnt == 0
            && (forall c :: !Exclusive(d.(privateCnt := 1), c))
  {
    SumZero(NewDevice(caps, priv, chans).chans);
  }

  /** Appending a device that holds no exclusive channel. */
  lemma Appended(e: Engine, d: Device, listed: bool)
    requires Inv(e) && DeviceOk(d, listed, e.refCount) && (forall c :: !Exclusive(d, c))
    ensures var e1 := e.(devs := e.devs + [d], list := if listed then e.list + [|e.devs|] else e.list);
            && Wf(e1) && DevicesOk(e1.devs, e1.list, e1.refCount) && HeldOk(e1.devs, e1.held) && UsersOk(e1)
            && (e.refCount > 0 ==> TablePublic(e1.devs, e1.table))
  {
    hide DeviceOk, Exclusive;
    var e1 := e.(devs := e.devs + [d], list := if listed then e.list + [|e.devs|] else e.list);
    assert |e.devs| !in e.list;
    forall i | 0 <= i < |e1.devs| ensures DeviceOk(e1.devs[i], i in e1.list, e1.refCount) {
      if i < |e.devs| { assert DeviceOk(e.devs[i], i in e.list, e.refCount); }
    }
    if e.refCount > 0 {
      forall i | 0 <= i < |e.table| && e.table[i].Some? ensures PublicId(e1.devs, e.table[i].value) {
        assert PublicId(e.devs, e.table[i].value);
      }
    }
  }

  lemma RegisterInv(e: Engine, caps: set<nat>, priv: bool, chans: nat, env: DriverAnswers)
    requires Inv(e)
    ensures Inv(Register(e, caps, priv, chans, env))
  {
    var dev, d := |e.devs|, NewDevice(caps, priv, chans);
    NewDeviceOk(caps, priv, chans, e.refCount);
    hide Rebalanced, Inv, NewDevice;
    if priv {
      Appended(e, d.(privateCnt := 1), true);
      RebalancedInv(e.(devs := e.devs + [d.(privateCnt := 1)], list := e.list + [dev]));
    } else {
      RegisterPublic(e, d, env);
    }
  }

  lemma RegisterPublic(e: Engine, d: Device, env: DriverAnswers)
    requires Inv(e) && Counted(d) && !d.isPrivate && Levelled(d.chans, 0, 0, e.refCount)
    requires e.refCount > 0 ==> Levelled(d.chans, 0, e.refCount, e.refCount - 1)
    ensures var dev := |e.devs|;
            var (d1, ok) := if e.refCount > 0 then GetFrom(d, 0, e.refCount, (c: nat) => env(Id(dev, c)))
                            else (d, true);
            && !d1.isPrivate
            && var e1 := e.(devs := e.devs + [d1], list := if ok then e.list + [dev] else e.list);
               && Wf(e1)
               && (ok ==> Inv(Rebalanced(e1)))
               && (!ok ==> Inv(e1))
  {
    var dev := |e.devs|;
    if e.refCount > 0 { GetFromOk(d, 0, e.refCount, (c: nat) => env(Id(dev, c))); }
    var (d1, ok) := if e.refCount > 0 then GetFrom(d, 0, e.refCount, (c: nat) => env(Id(dev, c)))
                    else (d, true);
    hide Rebalanced, GetFrom, Levelled, TablePublic, HeldOk, DevicesOk;
    assert DeviceOk(d1, ok, e.refCount);
    Appended(e, d1, ok);
    if ok { RebalancedInv(e.(devs := e.devs + [d1], list := e.list + [dev])); }
  }

  lemma {:induction false} WithoutIs(list: seq<nat>, dev: nat)
    requires Distinct(list)
    ensures forall i :: i in Without(list, dev) <==> i in list && i != dev
    ensures Distinct(Without(list, dev))
  {
    if list != [] {
      WithoutIs(list[1..], dev);
      assert list[0] !in list[1..];
    }
  }

  lemma UnregisterInv(e: Engine, dev: nat)
    requires Inv(e)
    ensures Inv(Unregister(e, dev))
  {
    WithoutIs(e.list, dev);
    var e1 := e.(list := Without(e.list, dev));
    hide Rebalanced, Without, TablePublic;
    forall i | 0 <= i < |e1.list| ensures e1.list[i] < |e.devs| {
      assert e1.list[i] in e1.list && e1.list[i] in e.list;
    }
    forall i | 0 <= i < |e.devs| ensures DeviceOk(e.devs[i], i in e1.list, e.refCount) {
      assert DeviceOk(e.devs[i], i in e.list, e.refCount);
    }
    RebalancedInv(e1);
  }

  /** Every step keeps the invariant. */
  lemma StepInv(e: Engine, a: Action)
    requires Inv(e) && Enabled(e, a)
    ensures Inv(Apply(e, a))
  {
    hide Get, Put, RequestChannel, ReleaseChannel, Register, Unregister, DevicesOk, HeldOk, TablePublic;
    match a {
      case UserGet(env) => GetInv(e, env, e.users + 1, e.copyGets); SameGet(e, env);
      case CopyGet1(env) => GetInv(e, env, e.users, e.copyGets + 1); SameGet(e, env);
      case UserPut => PutInv(e, e.users - 1, e.copyPuts); SamePut(e);
      case CopyPut1 => PutInv(e, e.users, e.copyPuts + 1); SamePut(e);
      case DoRequest(mask, fn, env) => RequestInv(e, mask, fn, env);
      case DoRelease(id) => ReleaseInv(e, id);
      case DoRegister(caps, priv, chans, env) => RegisterInv(e, caps, priv, chans, env);
      case DoUnregister(dev) => UnregisterInv(e, dev);
      case CopyGet2 =>
      case CopyPut2 =>
    }
  }

  lemma SameGet(e: Engine, env: DriverAnswers)
    requires Wf(e)
    ensures Get(e, env).users == e.users && Get(e, env).copyGets == e.copyGets
  {}

  lemma SamePut(e: Engine)
    requires Wf(e) && e.refCount > 0
    ensures Put(e).users == e.users && Put(e).copyPuts == e.copyPuts
  {}

  // ----- whole runs

  predicate Init(e: Engine) {
    && e.devs == [] && e.list == [] && e.refCount == 0 && e.copyRef == 0
    && e.users == 0 && e.copyGets == 0 && e.copyPuts == 0 && e.held == {}
    && (forall i :: 0 <= i < |e.table| ==> e.table[i].None?)
  }

  ghost predicate IsRun(run: seq<Engine>, acts: seq<Action>) {
    && |run| == |acts| + 1 && Init(run[0])
    && forall i :: 0 <= i < |acts| ==> Enabled(run[i], acts[i]) && run[i + 1] == Apply(run[i], acts[i])
  }

  lemma {:induction false} RunInv(run: seq<Engine>, acts: seq<Action>, i: nat)
    requires IsRun(run, acts) && i < |run|
    ensures Inv(run[i])
  {
    hide Apply, Enabled;
    if i > 0 {
      RunInv(run, acts, i - 1);
      StepInv(run[i - 1], acts[i - 1]);
    }
  }

  /** The reference invariant, in every run. */
  lemma ReferenceTheorem(run: seq<Engine>, acts: seq<Action>, i: nat, dev: nat)
    requires IsRun(run, acts) && i < |run| && dev < |run[i].devs|
    ensures var e, d := run[i], run[i].devs[dev];
            && d.refs == Sum(d.chans)
            && (d.isPrivate <==> d.privateCnt > 0)
            && (d.isPrivate ==> d.privateCnt == Sum(d.chans) + (if d.born then 1 else 0))
            && (forall c :: 0 <= c < |d.chans| ==>
                  && (d.isPrivate ==> d.chans[c].clients <= 1)
                  && (Id(dev, c) in e.held <==> d.isPrivate && d.chans[c].clients == 1)
                  && (!d.isPrivate && dev in e.list ==>
                        d.chans[c].clients == 0 || d.chans[c].clients == e.refCount))
  {
    RunInv(run, acts, i);
    var e := run[i];
    assert DeviceOk(e.devs[dev], dev in e.list, e.refCount);
    forall c | 0 <= c < |e.devs[dev].chans|
      ensures Id(dev, c) in e.held <==> e.devs[dev].isPrivate && e.devs[dev].chans[c].clients == 1
    {
      assert Valid(e.devs, Id(dev, c));
    }
  }

  lemma InitInv(e: Engine)
    requires Init(e)
    ensures Inv(e)
  {}

  lemma Stepped(e: Engine, a: Action) returns (e1: Engine)
    requires Inv(e) && Enabled(e, a)
    ensures e1 == Apply(e, a) && Inv(e1) && Wf(e1)
  {
    StepInv(e, a);
    e1 := Apply(e, a);
  }
}
