/**
 When the shared copy policy can be given a channel that someone holds exclusively.
 */
module DmaShared {
  import opened DmaDevices
  import opened DmaTable
  import opened DmaEngineRun
  import opened DmaEngineProof

  // ----- table entries name channels that exist, also when nobody cares about them

  /** No device is lost and none changes its number of channels. */
  ghost predicate SameShape(a: seq<Device>, b: seq<Device>) {
    |a| <= |b| && forall i :: 0 <= i < |a| ==> |a[i].chans| == |b[i].chans|
  }

  lemma {:induction false} GetFromShape(d: Device, c: nat, refCount: nat, env: nat -> Grab)
    requires c <= |d.chans|
    ensures |GetFrom(d, c, refCount, env).0.chans| == |d.chans|
    decreases |d.chans| - c
  {
    if c < |d.chans| {
      var (d1, o) := ChanGet(d, c, refCount, env(c));
      if o != NoDevice { GetFromShape(d1, c + 1, refCount, env); }
    }
  }

  lemma {:induction false} PutFromShape(d: Device, c: nat)
    requires c <= |d.chans|
    ensures |PutFrom(d, c).chans| == |d.chans|
    decreases |d.chans| - c
  {
    if c < |d.chans| { PutFromShape(ChanPut(d, c), c + 1); }
  }

  lemma {:induction false} GetAllShape(devs: seq<Device>, list: seq<nat>, refCount: nat, env: DriverAnswers)
    requires Listed(devs, list)
    ensures SameShape(devs, GetAll(devs, list, refCount, env).0)
    decreases |list|
  {
    if list != [] {
      var dev := list[0];
      GetFromShape(devs[dev], 0, refCount, (c: nat) => env(Id(dev, c)));
      var d := GetDevice(devs[dev], dev, refCount, env).0;
      GetAllShape(devs[dev := d], list[1..], refCount, env);
    }
  }

  lemma {:induction false} PutAllShape(devs: seq<Device>, list: seq<nat>)
    requires Listed(devs, list)
    ensures SameShape(devs, PutAll(devs, list))
    decreases |list|
  {
    if list != [] {
      PutFromShape(devs[list[0]], 0);
      PutAllShape(devs[list[0] := PutDevice(devs[list[0]])], list[1..]);
    }
  }

  lemma {:induction false} RequestShape(devs: seq<Device>, list: seq<nat>, i: nat, mask: set<nat>, fn: Id -> bool,
                                        refCount: nat, env: DriverAnswers)
    requires Listed(devs, list) && i <= |list|
    ensures SameShape(devs, RequestFrom(devs, list, i, mask, fn, refCount, env).devs)
    decreases |list| - i
  {
    if i < |list| {
      var dev := list[i];
      match Candidate(devs[dev], mask, (c: nat) => fn(Id(dev, c)))
      case None => RequestShape(devs, list, i + 1, mask, fn, refCount, env);
      case Some(c) =>
        if c < |devs[dev].chans| {
          var (d, o) := TryExclusive(devs[dev], c, refCount, env(Id(dev, c)));
          var devs1 := devs[dev := d];
          assert SameShape(devs, devs1);
          if o == NoDevice {
            RequestShape(devs1, list[..i] + list[i + 1..], i, mask, fn, refCount, env);
          } else if o == Failed {
            RequestShape(devs1, list, i + 1, mask, fn, refCount, env);
          }
        }
    }
  }

  ghost predicate TableValid(devs: seq<Device>, t: seq<Option<Id>>) {
    forall i :: 0 <= i < |t| && t[i].Some? ==> Valid(devs, t[i].value)
  }

  lemma ShapeKeepsTable(a: seq<Device>, b: seq<Device>, t: seq<Option<Id>>)
    requires SameShape(a, b) && TableValid(a, t)
    ensures TableValid(b, t)
  {}

  lemma RebalancedTable(e: Engine)
    requires Wf(e)
    ensures TableValid(Rebalanced(e).devs, Rebalanced(e).table)
  {
    hide Rebalance;
    RebalancePublic(e.devs, e.list, e.refCount, e.online, e.smp);
  }

  lemma TableStep(e: Engine, a: Action)
    requires Enabled(e, a) && TableValid(e.devs, e.table)
    ensures TableValid(Apply(e, a).devs, Apply(e, a).table)
  {
    hide TableValid, SameShape, Rebalanced, Listed, Distinct, Valid;
    match a {
      case UserGet(env) => GetTable(e, env);
      case CopyGet1(env) => GetTable(e, env);
      case UserPut => PutTable(e);
      case CopyPut1 => PutTable(e);
      case DoRequest(mask, fn, env) => RequestTable(e, mask, fn, env);
      case DoRelease(id) => ReleaseTable(e, id);
      case DoRegister(caps, priv, chans, env) => RegisterTable(e, caps, priv, chans, env);
      case DoUnregister(dev) =>
        var e1 := e.(list := Without(e.list, dev));
        if Wf(e1) { RebalancedTable(e1); }
      case _ =>
    }
  }

  lemma GetTable(e: Engine, env: DriverAnswers)
    requires Wf(e) && TableValid(e.devs, e.table)
    ensures TableValid(Get(e, env).devs, Get(e, env).table)
  {
    GetAllShape(e.devs, e.list, e.refCount + 1, env);
    var (devs, list) := GetAll(e.devs, e.list, e.refCount + 1, env);
    ShapeKeepsTable(e.devs, devs, e.table);
    hide TableValid, SameShape, Rebalanced, GetAll, Listed, Distinct, Valid;
    var e1 := e.(devs := devs, list := list, refCount := e.refCount + 1);
    if e1.refCount == 1 && Wf(e1) { RebalancedTable(e1); }
  }

  lemma PutTable(e: Engine)
    requires Wf(e) && e.refCount > 0 && TableValid(e.devs, e.table)
    ensures TableValid(Put(e).devs, Put(e).table)
  {
    PutAllShape(e.devs, e.list);
    ShapeKeepsTable(e.devs, Put(e).devs, e.table);
  }

  lemma RequestTable(e: Engine, mask: set<nat>, fn: Id -> bool, env: DriverAnswers)
    requires Wf(e) && TableValid(e.devs, e.table)
    ensures var e1 := RequestChannel(e, mask, fn, env);
            TableValid(e1.devs, e1.table) && e1.table == e.table && e1.copyRef == e.copyRef && e1.refCount == e.refCount
  {
    RequestShape(e.devs, e.list, 0, mask, fn, e.refCount, env);
    hide RequestFrom;
    ShapeKeepsTable(e.devs, RequestChannel(e, mask, fn, env).devs, e.table);
  }

  lemma ReleaseTable(e: Engine, id: Id)
    requires Valid(e.devs, id) && TableValid(e.devs, e.table)
    ensures TableValid(ReleaseChannel(e, id).devs, ReleaseChannel(e, id).table)
  {
    ShapeKeepsTable(e.devs, ReleaseChannel(e, id).devs, e.table);
  }

  lemma RegisterTable(e: Engine, caps: set<nat>, priv: bool, chans: nat, env: DriverAnswers)
    requires Wf(e) && TableValid(e.devs, e.table)
    ensures var e1 := Register(e, caps, priv, chans, env); TableValid(e1.devs, e1.table)
  {
    hide Rebalanced, GetFrom, Wf;
    var dev := |e.devs|;
    var d := NewDevice(caps, priv, chans);
    var (d1, ok) := if e.refCount > 0 && !priv then GetFrom(d, 0, e.refCount, (c: nat) => env(Id(dev, c)))
                    else (d, true);
    ShapeKeepsTable(e.devs, e.devs + [d1], e.table);
    if ok {
      var d2 := if priv then d1.(privateCnt := d1.privateCnt + 1) else d1;
      var e1 := e.(devs := e.devs + [d2], list := e.list + [dev]);
      ShapeKeepsTable(e.devs, e1.devs, e.table);
      if Wf(e1) { RebalancedTable(e1); }
    }
  }

  lemma {:induction false} RunTable(run: seq<Engine>, acts: seq<Action>, i: nat)
    requires IsRun(run, acts) && i < |run|
    ensures TableValid(run[i].devs, run[i].table)
  {
    hide Apply, Enabled;
    if i > 0 {
      RunTable(run, acts, i - 1);
      TableStep(run[i - 1], acts[i - 1]);
    }
  }

  // ----- the exclusive user who asks for one channel

  /** A request for channel `id` and no other, to a driver that grants it. */
  function AskFor(id: Id): Action { DoRequest({}, x => x == id, _ => Granted) }

  lemma {:induction false} NoneMatches(d: Device, c: nat, fn: nat -> bool)
    requires c <= |d.chans| && forall x :: c <= x < |d.chans| ==> !fn(x)
    ensures FirstIdle(d, c, fn) == None
    decreases |d.chans| - c
  {
    if c < |d.chans| { NoneMatches(d, c + 1, fn); }
  }

  lemma {:induction false} OneMatches(d: Device, c: nat, fn: nat -> bool, x: nat)
    requires c <= x < |d.chans| && d.chans[x].clients == 0 && forall y :: 0 <= y < |d.chans| ==> (fn(y) <==> y == x)
    ensures FirstIdle(d, c, fn) == Some(x)
    decreases |d.chans| - c
  {
    if c < x { OneMatches(d, c + 1, fn, x); }
  }

  /** Nobody uses the channel, and its device would give it away. */
  predicate Idle(d: Device, c: nat) {
    c < |d.chans| && d.chans[c].clients == 0 && (d.isPrivate || AllIdle(d))
  }

  lemma {:induction false} RequestReaches(devs: seq<Device>, list: seq<nat>, i: nat, id: Id, refCount: nat)
    requires Listed(devs, list) && i <= |list| && id.dev in list[i..]
    requires id.dev < |devs| && Idle(devs[id.dev], id.chan)
    ensures RequestFrom(devs, list, i, {}, x => x == id, refCount, _ => Granted).chan == Some(id)
    decreases |list| - i
  {
    var dev := list[i];
    var fn := (c: nat) => Id(dev, c) == id;
    if dev == id.dev {
      OneMatches(devs[dev], 0, fn, id.chan);
      assert Candidate(devs[dev], {}, fn) == Some(id.chan);
      assert TryExclusive(devs[dev], id.chan, refCount, Granted).1 == Ok;
    } else {
      NoneMatches(devs[dev], 0, fn);
      assert Candidate(devs[dev], {}, fn) == None;
      RequestReaches(devs, list, i + 1, id, refCount);
    }
  }

  /** With no public user left, a channel of a listed device that nobody holds can be had. */
  lemma IdleWhenUnused(e: Engine, id: Id)
    requires Inv(e) && e.refCount == 0 && Valid(e.devs, id) && id.dev in e.list && id !in e.held
    ensures Idle(e.devs[id.dev], id.chan)
  {
    assert DeviceOk(e.devs[id.dev], id.dev in e.list, e.refCount);
    assert !Exclusive(e.devs[id.dev], id.chan);
  }

  lemma AskForIsGranted(e: Engine, id: Id)
    requires Inv(e) && e.refCount == 0 && Valid(e.devs, id) && id.dev in e.list && id !in e.held
    ensures Enabled(e, AskFor(id)) && id in Apply(e, AskFor(id)).held
  {
    IdleWhenUnused(e, id);
    assert e.list[0..] == e.list;
    RequestReaches(e.devs, e.list, 0, id, e.refCount);
    hide RequestFrom, Inv, Idle;
  }

  // ----- exactly when the policies collide

  /** Channel `id` is held exclusively, or one request away from it. */
  ghost predicate AtRisk(e: Engine, id: Id) {
    || id in e.held
    || exists mask, fn, env :: Enabled(e, DoRequest(mask, fn, env)) && id in Apply(e, DoRequest(mask, fn, env)).held
  }

  /** A request does not touch the table: whoever loads the entry after it gets the same channel. */
  lemma RequestKeepsEntry(e: Engine, mask: set<nat>, fn: Id -> bool, env: DriverAnswers)
    requires Enabled(e, DoRequest(mask, fn, env))
    ensures var e1 := Apply(e, DoRequest(mask, fn, env));
            e1.table == e.table && e1.copyRef == e.copyRef && e1.refCount == e.refCount
  {}

  lemma PublicNotHeld(e: Engine, id: Id)
    requires Inv(e) && PublicId(e.devs, id)
    ensures id !in e.held
  {
    hide DevicesOk, TablePublic;
  }

  lemma PublicNotAtRisk(e: Engine, cpu: nat)
    requires Inv(e) && e.refCount > 0 && cpu < |e.table| && e.table[cpu].Some?
    ensures PublicId(e.devs, e.table[cpu].value) && !AtRisk(e, e.table[cpu].value)
  {
    hide Apply, Enabled;
    var id := e.table[cpu].value;
    assert PublicId(e.devs, id);
    PublicNotHeld(e, id);
    forall mask, fn, env | Enabled(e, DoRequest(mask, fn, env)) ensures id !in Apply(e, DoRequest(mask, fn, env)).held {
      var e1 := Apply(e, DoRequest(mask, fn, env));
      DmaEngineProof.StepInv(e, DoRequest(mask, fn, env));
      RequestKeepsEntry(e, mask, fn, env);
      assert PublicId(e1.devs, e1.table[cpu].value);
      PublicNotHeld(e1, id);
    }
  }

  /** With no public user left: at risk if and only if it is held, or its device is listed. */
  lemma UnusedAtRisk(e: Engine, id: Id)
    requires Inv(e) && e.refCount == 0 && Valid(e.devs, id)
    ensures AtRisk(e, id) <==> id in e.held || id.dev in e.list
  {
    if id !in e.held {
      if id.dev in e.list {
        AskForIsGranted(e, id);
      } else {
        forall mask, fn, env | Enabled(e, DoRequest(mask, fn, env))
          ensures id !in Apply(e, DoRequest(mask, fn, env)).held
        {
          RequestFromListed(e.devs, e.list, 0, mask, fn, e.refCount, env);
        }
      }
    }
  }

  lemma {:induction false} RequestFromListed(devs: seq<Device>, list: seq<nat>, i: nat, mask: set<nat>, fn: Id -> bool,
                                             refCount: nat, env: DriverAnswers)
    requires Listed(devs, list) && i <= |list|
    ensures var id := RequestFrom(devs, list, i, mask, fn, refCount, env).chan; id.Some? ==> id.value.dev in list
    decreases |list| - i
  {
    if i < |list| {
      var dev := list[i];
      match Candidate(devs[dev], mask, (c: nat) => fn(Id(dev, c)))
      case None => RequestFromListed(devs, list, i + 1, mask, fn, refCount, env);
      case Some(c) =>
        if c < |devs[dev].chans| {
          var (d, o) := TryExclusive(devs[dev], c, refCount, env(Id(dev, c)));
          var devs1 := devs[dev := d];
          if o == NoDevice {
            RequestFromListed(devs1, list[..i] + list[i + 1..], i, mask, fn, refCount, env);
          } else if o == Failed {
            RequestFromListed(devs1, list, i + 1, mask, fn, refCount, env);
          }
        }
    }
  }

  /**
   In every run, whatever happens between the two loads: the channel that copy_dma_get_channel_sh
   returns is held exclusively, or one request away from that, if and only if dmaengine_ref_count is
   0 when the table entry is loaded and the channel is held already or its device is still listed.
   While the count is positive the channel is public and in use.
   */
  lemma SharedExact(run: seq<Engine>, acts: seq<Action>, i: nat, j: nat, cpu: nat, aligned: Id -> bool)
    requires IsRun(run, acts) && i <= j < |run| && SharedChannel(run[i], run[j], cpu, aligned).Some?
    ensures var e, id := run[j], SharedChannel(run[i], run[j], cpu, aligned).value;
            && (AtRisk(e, id) <==> e.refCount == 0 && (id in e.held || id.dev in e.list))
            && (e.refCount > 0 ==> PublicId(e.devs, id) && id !in e.held)
  {
    RunInv(run, acts, j);
    RunTable(run, acts, j);
    hide IsRun, Inv, AtRisk, PublicId;
    var e := run[j];
    if e.refCount > 0 {
      PublicNotAtRisk(e, cpu);
      PublicNotHeld(e, e.table[cpu].value);
    } else {
      UnusedAtRisk(e, e.table[cpu].value);
    }
  }

  /** No put is under way in state `i`, and none begins before state `j`. */
  predicate NoPut(run: seq<Engine>, acts: seq<Action>, i: nat, j: nat) {
    && i <= j <= |acts| && i < |run| && run[i].copyPuts == 0
    && forall n :: i <= n < j ==> !acts[n].CopyPut1?
  }

  lemma {:induction false} PolicyStays(run: seq<Engine>, acts: seq<Action>, i: nat, j: nat)
    requires IsRun(run, acts) && j < |run| && NoPut(run, acts, i, j)
    ensures run[j].copyPuts == 0 && run[j].copyRef >= run[i].copyRef
    decreases j
  {
    if i < j {
      hide Apply, Enabled, Init;
      PolicyStays(run, acts, i, j - 1);
      StaysOne(run[j - 1], acts[j - 1]);
    }
  }

  lemma StaysOne(e: Engine, a: Action)
    requires Enabled(e, a) && !a.CopyPut1? && e.copyPuts == 0
    ensures Apply(e, a).copyPuts == 0 && Apply(e, a).copyRef >= e.copyRef
  {}

  /** Shared and exclusive never collide while no copy_dmaengine_put is under way between the loads. */
  lemma SharedIsNotExclusive(run: seq<Engine>, acts: seq<Action>, i: nat, j: nat, cpu: nat, aligned: Id -> bool)
    requires IsRun(run, acts) && i <= j < |run| && NoPut(run, acts, i, j)
    requires SharedChannel(run[i], run[j], cpu, aligned).Some?
    ensures var e, id := run[j], SharedChannel(run[i], run[j], cpu, aligned).value;
            e.refCount > 0 && PublicId(e.devs, id) && id !in e.held && !AtRisk(e, id)
  {
    PolicyStays(run, acts, i, j);
    SharedExact(run, acts, i, j, cpu, aligned);
    RunInv(run, acts, j);
    hide IsRun, AtRisk, PublicId, DevicesOk, HeldOk, TablePublic;
  }

  // ----- why no put may be under way

  /** One public memcpy device with one channel that has `n` clients. */
  ghost predicate OneDevice(e: Engine, n: nat) {
    && e.online == 1 && e.smp && e.list == [0] && |e.devs| == 1
    && e.devs[0].caps == {MEMCPY} && !e.devs[0].isPrivate && e.devs[0].privateCnt == 0
    && |e.devs[0].chans| == 1 && e.devs[0].chans[0].clients == n
  }

  lemma OneRebalanced(e: Engine, n: nat)
    requires OneDevice(e, n) && Wf(e)
    ensures OneDevice(Rebalanced(e), n)
    ensures e.refCount > 0 && n > 0 ==> |Rebalanced(e).table| > 0 && Rebalanced(e).table[0] == Some(Id(0, 0))
  {
    RebalancePublic(e.devs, e.list, e.refCount, e.online, e.smp);
    var e' := Rebalanced(e);
    assert SameDevice(e.devs[0], e'.devs[0]);
    assert SameChan(e.devs[0].chans[0], e'.devs[0].chans[0]);
    if e.refCount > 0 && n > 0 {
      var devs0, slots := ClearCounts(e.devs, e.list), Slots(TABLE_CAPS, 1);
      ClearedSame(e.devs, e.list);
      assert SameDevice(e.devs[0], devs0[0]) && SameChan(e.devs[0].chans[0], devs0[0].chans[0]);
      assert BusyFrom(devs0[0], 0, 1) == [] && BusyFrom(devs0[0], 0, 0) == [Id(0, 0)];
      assert e.list[1..] == [];
      assert Eligible(devs0, e.list, MEMCPY) == [Id(0, 0)];
      assert slots[0] == MEMCPY;
      FirstRow(devs0, e.list, slots, 0, 1, MEMCPY, 0);
    }
  }

  lemma OneRegistered(e: Engine, env: DriverAnswers)
    requires Init(e) && e.online == 1 && e.smp
    ensures Enabled(e, DoRegister({MEMCPY}, false, 1, env))
    ensures var e1 := Apply(e, DoRegister({MEMCPY}, false, 1, env));
            OneDevice(e1, 0) && e1.refCount == 0 && e1.copyRef == 0 && e1.copyPuts == 0 && e1.held == {}
  {
    var d := NewDevice({MEMCPY}, false, 1);
    assert [] + [d] == [d] && [] + [0] == [0];
    OneRebalanced(e.(devs := [d], list := [0]), 0);
  }

  lemma OneGot(e: Engine, env: DriverAnswers)
    requires OneDevice(e, 0) && Wf(e) && e.refCount == 0 && env == (_ => Granted)
    ensures Enabled(e, CopyGet1(env))
    ensures var e1 := Apply(e, CopyGet1(env));
            && OneDevice(e1, 1) && e1.refCount == 1 && |e1.table| > 0 && e1.table[0] == Some(Id(0, 0))
            && e1.copyGets == e.copyGets + 1 && e1.copyRef == e.copyRef && e1.copyPuts == e.copyPuts
            && e1.held == e.held
  {
    var f := (c: nat) => env(Id(0, c));
    var d1 := SetClients(e.devs[0], 0, 1, e.devs[0].refs + 1);
    assert GetFrom(d1, 1, 1, f) == (d1, true);
    assert GetFrom(e.devs[0], 0, 1, f) == (d1, true);
    assert GetDevice(e.devs[0], 0, 1, env) == (d1, true);
    assert e.list[1..] == [];
    assert GetAll(e.devs[0 := d1], [], 1, env) == (e.devs[0 := d1], []);
    assert [0] + [] == [0];
    assert GetAll(e.devs, e.list, 1, env) == (e.devs[0 := d1], [0]);
    OneRebalanced(e.(devs := e.devs[0 := d1], list := [0], refCount := 1), 1);
  }

  lemma OneGotTwice(e: Engine)
    requires OneDevice(e, 1) && Wf(e) && e.copyGets > 0
    ensures Enabled(e, CopyGet2)
    ensures var e1 := Apply(e, CopyGet2);
            && OneDevice(e1, 1) && e1.refCount == e.refCount && e1.table == e.table
            && e1.copyRef == e.copyRef + 1 && e1.copyPuts == e.copyPuts
  {}

  lemma OnePut(e: Engine)
    requires OneDevice(e, 1) && Wf(e) && e.refCount == 1 && e.copyRef > e.copyPuts
    ensures Enabled(e, CopyPut1)
    ensures var e1 := Apply(e, CopyPut1);
            && OneDevice(e1, 0) && e1.refCount == 0 && e1.table == e.table
            && e1.copyRef == e.copyRef && e1.copyPuts == e.copyPuts + 1
  {
    var d1 := ChanPut(e.devs[0], 0);
    assert PutFrom(d1, 1) == d1;
    assert PutFrom(e.devs[0], 0) == d1;
    assert e.list[1..] == [];
    assert PutAll(e.devs, e.list) == e.devs[0 := d1];
  }

  lemma OneRequested(e: Engine, fn: Id -> bool, env: DriverAnswers)
    requires OneDevice(e, 0) && Wf(e) && env == (_ => Granted) && fn == (_ => true)
    ensures Enabled(e, DoRequest({MEMCPY}, fn, env))
    ensures var e1 := Apply(e, DoRequest({MEMCPY}, fn, env));
            Id(0, 0) in e1.held && e1.table == e.table && e1.copyRef == e.copyRef && e1.copyPuts == e.copyPuts
  {
    var f := (c: nat) => fn(Id(0, c));
    assert FirstIdle(e.devs[0], 0, f) == Some(0);
    assert Candidate(e.devs[0], {MEMCPY}, f) == Some(0);
  }

  /** A policy that is given up while an exclusive user asks for its channel. */
  lemma CollisionRun() returns (run: seq<Engine>, acts: seq<Action>)
    ensures IsRun(run, acts) && |run| == 7
    ensures run[3].copyRef == 1 && run[3].copyPuts == 0 && run[5].copyPuts == 1 && run[6].copyPuts == 0
    ensures SharedChannel(run[5], run[5], 0, _ => true) == Some(Id(0, 0)) && Id(0, 0) in run[5].held
    ensures SharedChannel(run[3], run[6], 0, _ => true) == Some(Id(0, 0)) && Id(0, 0) in run[6].held
  {
    hide Apply, Enabled, OneDevice, Inv;
    var fn: Id -> bool := _ => true;
    var env: DriverAnswers := _ => Granted;
    var a0, a4 := DoRegister({MEMCPY}, false, 1, env), DoRequest({MEMCPY}, fn, env);
    var e0 := Engine(1, true, [], [], 0, 0, [], 0, 0, 0, {});
    InitInv(e0);
    OneRegistered(e0, env);
    var e1 := Stepped(e0, a0);
    OneGot(e1, env);
    var e2 := Stepped(e1, CopyGet1(env));
    OneGotTwice(e2);
    var e3 := Stepped(e2, CopyGet2);
    OnePut(e3);
    var e4 := Stepped(e3, CopyPut1);
    OneRequested(e4, fn, env);
    var e5 := Stepped(e4, a4);
    PutEnds(e5);
    var e6 := Stepped(e5, CopyPut2);
    run := [e0, e1, e2, e3, e4, e5, e6];
    acts := [a0, CopyGet1(env), CopyGet2, CopyPut1, a4, CopyPut2];
    assert IsRun(run, acts);
  }

  lemma PutEnds(e: Engine)
    requires Wf(e) && e.copyPuts == 1 && e.copyRef > 0
    ensures Enabled(e, CopyPut2)
    ensures var e1 := Apply(e, CopyPut2); e1.copyPuts == 0 && e1.table == e.table && e1.held == e.held
  {}

  /** dmaengine_put leaves channel_table as it is, so between the two critical sections of
      copy_dmaengine_put an exclusive user can take the channel that the shared policy still hands
      out... */
  lemma CollisionDuringPut()
    ensures exists run: seq<Engine>, acts: seq<Action> ::
              && IsRun(run, acts)
              && var e := run[|run| - 1];
                 && e.copyPuts == 1 && SharedChannel(e, e, 0, _ => true) == Some(Id(0, 0))
                 && Id(0, 0) in e.held
  {
    var run, acts := CollisionRun();
    var r, s := run[..6], acts[..5];
    assert IsRun(r, s) by { hide Apply, Enabled, Init; }
    assert r[|r| - 1] == run[5];
  }

  /** ... and a put that goes through between the two loads has the same effect, though no put is under
      way at either of them. */
  lemma CollisionBetweenLoads()
    ensures exists run: seq<Engine>, acts: seq<Action>, i: nat, j: nat ::
              && IsRun(run, acts) && i <= j < |run| && run[i].copyPuts == 0 && run[j].copyPuts == 0
              && SharedChannel(run[i], run[j], 0, _ => true) == Some(Id(0, 0))
              && Id(0, 0) in run[j].held
  {
    var run, acts := CollisionRun();
    hide IsRun;
    assert run[3].copyPuts == 0;
  }
}
