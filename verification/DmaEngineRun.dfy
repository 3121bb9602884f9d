/**
 Runs of the DMA engine: public users (dmaengine_get/put), exclusive users
 (__dma_request_channel, dma_release_channel), drivers that register and unregister, and the
 shared copy policy, whose get and put each take dma_list_mutex twice.
 */
module DmaEngineRun {
  import opened DmaDevices
  import opened DmaTable

  datatype Engine = Engine(
    online: nat,                  // online CPUs
    smp: bool,                    // num_possible_cpus() > 1
    devs: seq<Device>,            // every device there ever was
    list: seq<nat>,               // dma_device_list
    refCount: nat,                // dmaengine_ref_count
    copyRef: nat,                 // copy_dmaengine_ref_count
    table: seq<Option<Id>>,       // channel_table
    // who holds what; no operation reads these
    users: nat,                   // plain dmaengine_get not yet put
    copyGets: nat,                // copy_dmaengine_get between its two critical sections
    copyPuts: nat,                // copy_dmaengine_put between its two critical sections
    held: set<Id>)                // channels handed out exclusively

  type DriverAnswers = Id -> Grab

  predicate Wf(e: Engine) {
    && Listed(e.devs, e.list) && Distinct(e.list)
    && (forall id :: id in e.held ==> Valid(e.devs, id))
  }

  // ----- dmaengine_get

  function GetDevice(d: Device, dev: nat, refCount: nat, env: DriverAnswers): (Device, bool) {
    if d.isPrivate then (d, true) else GetFrom(d, 0, refCount, (c: nat) => env(Id(dev, c)))
  }

  /** Every listed device in turn; a device whose module is gone leaves the list. */
  function GetAll(devs: seq<Device>, list: seq<nat>, refCount: nat, env: DriverAnswers)
    : (r: (seq<Device>, seq<nat>))
    requires Listed(devs, list)
    ensures |r.0| == |devs|
    decreases |list|
  {
    if list == [] then (devs, [])
    else
      var (d, ok) := GetDevice(devs[list[0]], list[0], refCount, env);
      var (devs1, rest) := GetAll(devs[list[0] := d], list[1..], refCount, env);
      (devs1, if ok then [list[0]] + rest else rest)
  }

  function Rebalanced(e: Engine): Engine
    requires Wf(e)
  {
    var (devs, t) := Rebalance(e.devs, e.list, e.refCount, e.online, e.smp);
    e.(devs := devs, table := t)
  }

  function Get(e: Engine, env: DriverAnswers): Engine
    requires Wf(e)
  {
    var (devs, list) := GetAll(e.devs, e.list, e.refCount + 1, env);
    var e1 := e.(devs := devs, list := list, refCount := e.refCount + 1);
    if e1.refCount == 1 && Wf(e1) then Rebalanced(e1) else e1
  }

  // ----- dmaengine_put

  function PutDevice(d: Device): Device {
    if d.isPrivate then d else PutFrom(d, 0)
  }

  function PutAll(devs: seq<Device>, list: seq<nat>): (r: seq<Device>)
    requires Listed(devs, list)
    ensures |r| == |devs|
    decreases |list|
  {
    if list == [] then devs else PutAll(devs[list[0] := PutDevice(devs[list[0]])], list[1..])
  }

  function Put(e: Engine): Engine
    requires Wf(e) && e.refCount > 0
  {
    e.(devs := PutAll(e.devs, e.list), refCount := e.refCount - 1)
  }

  // ----- __dma_request_channel

  datatype Request = Request(devs: seq<Device>, list: seq<nat>, chan: Option<Id>)

  /** The loop over the list from entry `i` on. */
  function RequestFrom(devs: seq<Device>, list: seq<nat>, i: nat, mask: set<nat>, fn: Id -> bool,
                       refCount: nat, env: DriverAnswers): (r: Request)
    requires Listed(devs, list) && i <= |list|
    decreases |list| - i
  {
    if i == |list| then Request(devs, list, None)
    else
      var dev := list[i];
      match Candidate(devs[dev], mask, (c: nat) => fn(Id(dev, c)))
      case None => RequestFrom(devs, list, i + 1, mask, fn, refCount, env)
      case Some(c) =>
        if c >= |devs[dev].chans| then Request(devs, list, None) else
        var (d, o) := TryExclusive(devs[dev], c, refCount, env(Id(dev, c)));
        var devs1 := devs[dev := d];
        match o {
          case Ok => Request(devs1, list, Some(Id(dev, c)))
          case NoDevice => RequestFrom(devs1, list[..i] + list[i + 1..], i, mask, fn, refCount, env)
          case Failed => RequestFrom(devs1, list, i + 1, mask, fn, refCount, env)
        }
  }

  function RequestChannel(e: Engine, mask: set<nat>, fn: Id -> bool, env: DriverAnswers): Engine
    requires Wf(e)
  {
    var r := RequestFrom(e.devs, e.list, 0, mask, fn, e.refCount, env);
    e.(devs := r.devs, list := r.list,
       held := if r.chan.Some? then e.held + {r.chan.value} else e.held)
  }

  function ReleaseChannel(e: Engine, id: Id): Engine
    requires Valid(e.devs, id)
  {
    e.(devs := e.devs[id.dev := DmaDevices.Release(e.devs[id.dev], id.chan)], held := e.held - {id})
  }

  // ----- dma_async_device_register, dma_async_device_unregister

  function NewDevice(caps: set<nat>, priv: bool, chans: nat): Device {
    Device(caps, priv, 0, priv, seq(chans, _ => Chan(0, 0)), 0)
  }

  function Register(e: Engine, caps: set<nat>, priv: bool, chans: nat, env: DriverAnswers): Engine
    requires Wf(e)
  {
    var dev := |e.devs|;
    var d := NewDevice(caps, priv, chans);
    var (d1, ok) := if e.refCount > 0 && !priv then GetFrom(d, 0, e.refCount, (c: nat) => env(Id(dev, c)))
                    else (d, true);
    if !ok then e.(devs := e.devs + [d1])
    else
      var d2 := if priv then d1.(privateCnt := d1.privateCnt + 1) else d1;
      var e1 := e.(devs := e.devs + [d2], list := e.list + [dev]);
      if Wf(e1) then Rebalanced(e1) else e1
  }

  function Without(list: seq<nat>, dev: nat): seq<nat> {
    if list == [] then [] else (if list[0] == dev then [] else [list[0]]) + Without(list[1..], dev)
  }

  function Unregister(e: Engine, dev: nat): Engine
    requires Wf(e)
  {
    var e1 := e.(list := Without(e.list, dev));
    if Wf(e1) then Rebalanced(e1) else e1
  }

  // ----- the shared copy policy

  /** copy_dma_get_channel_sh on CPU `cpu`, which takes no lock: it loads the reference count of the
      policy in state `first` and the table entry in state `second`, at that time or later.  `aligned`
      is the answer of is_dma_copy_aligned. */
  function SharedChannel(first: Engine, second: Engine, cpu: nat, aligned: Id -> bool): (r: Option<Id>)
    ensures r.Some? ==> first.copyRef > 0 && aligned(r.value)
  {
    if first.copyRef == 0 || cpu >= |second.table| then None
    else if second.table[cpu].Some? && !aligned(second.table[cpu].value) then None
    else second.table[cpu]
  }

  // ----- steps

  datatype Action =
    | UserGet(env: DriverAnswers) | UserPut
    | CopyGet1(env: DriverAnswers) | CopyGet2 | CopyPut1 | CopyPut2
    | DoRequest(mask: set<nat>, fn: Id -> bool, env: DriverAnswers)
    | DoRelease(id: Id)
    | DoRegister(caps: set<nat>, priv: bool, chans: nat, env: DriverAnswers)
    | DoUnregister(dev: nat)

  /** References are put, and channels released, by those who hold them; a driver unregisters a
      device only when no channel of it has a client. */
  predicate Enabled(e: Engine, a: Action) {
    && Wf(e)
    && match a
       case UserPut => e.users > 0 && e.refCount > 0
       case CopyGet2 => e.copyGets > 0
       case CopyPut1 => e.copyRef > e.copyPuts && e.refCount > 0
       case CopyPut2 => e.copyPuts > 0 && e.copyRef > 0
       case DoRelease(id) => id in e.held
       case DoUnregister(dev) => dev < |e.devs| && AllIdle(e.devs[dev])
       case _ => true
  }

  function Apply(e: Engine, a: Action): Engine
    requires Enabled(e, a)
  {
    match a
    case UserGet(env) => Get(e, env).(users := e.users + 1)
    case UserPut => Put(e).(users := e.users - 1)
    case CopyGet1(env) => Get(e, env).(copyGets := e.copyGets + 1)
    case CopyGet2 => e.(copyGets := e.copyGets - 1, copyRef := e.copyRef + 1)
    case CopyPut1 => Put(e).(copyPuts := e.copyPuts + 1)
    case CopyPut2 => e.(copyPuts := e.copyPuts - 1, copyRef := e.copyRef - 1)
    case DoRequest(mask, fn, env) => RequestChannel(e, mask, fn, env)
    case DoRelease(id) => ReleaseChannel(e, id)
    case DoRegister(caps, priv, chans, env) => Register(e, caps, priv, chans, env)
    case DoUnregister(dev) => Unregister(e, dev)
  }

  // ----- invariant

  predicate DevicesOk(devs: seq<Device>, list: seq<nat>, refCount: nat) {
    forall i :: 0 <= i < |devs| ==> DeviceOk(devs[i], i in list, refCount)
  }

  ghost predicate HeldOk(devs: seq<Device>, held: set<Id>) {
    forall id :: id in held <==> Valid(devs, id) && Exclusive(devs[id.dev], id.chan)
  }

  /** One public reference per user, whichever critical section the policy is in. */
  predicate UsersOk(e: Engine) {
    e.copyPuts <= e.copyRef && e.refCount == e.users + e.copyGets + (e.copyRef - e.copyPuts)
  }

  ghost predicate Inv(e: Engine) {
    && Wf(e)
    && DevicesOk(e.devs, e.list, e.refCount)
    && HeldOk(e.devs, e.held)
    && UsersOk(e)
    && (e.refCount > 0 ==> TablePublic(e.devs, e.table))
  }
}
