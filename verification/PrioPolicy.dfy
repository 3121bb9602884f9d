/**
 The priority policy: four channels taken exclusively, of which a timer suspends and resumes all but
 the first in turn.  Other users of the DMA engine act between its calls.
 */
module PrioPolicy {
  import opened DmaDevices
  import opened DmaTable
  import opened DmaEngineRun
  import DmaEngineProof

  const MAX_CHAN: nat := 4        // DMA_MAX_CHAN_PRIO
  const MAX_QUANTUM: nat := 2
  const HIGH: nat := 0            // DMA_HIGH_PRIO
  const LOW: nat := 128           // DMA_LOW_PRIO

  // ----- what the engine grants

  lemma TryKeepsChans(d: Device, c: nat, refCount: nat, g: Grab)
    requires c < |d.chans|
    ensures TryExclusive(d, c, refCount, g).1 != Ok ==> TryExclusive(d, c, refCount, g).0.chans == d.chans
  {}

  /** A requested channel had no client before. */
  lemma {:induction false} RequestIdle(devs: seq<Device>, list: seq<nat>, i: nat, mask: set<nat>, fn: Id -> bool,
                                       refCount: nat, env: DriverAnswers)
    requires Listed(devs, list) && i <= |list|
    ensures var id := RequestFrom(devs, list, i, mask, fn, refCount, env).chan;
            id.Some? ==> && id.value.dev < |devs| && id.value.chan < |devs[id.value.dev].chans|
                         && devs[id.value.dev].chans[id.value.chan].clients == 0
    decreases |list| - i
  {
    if i < |list| {
      var dev := list[i];
      match Candidate(devs[dev], mask, (c: nat) => fn(Id(dev, c)))
      case None => RequestIdle(devs, list, i + 1, mask, fn, refCount, env);
      case Some(c) =>
        if c < |devs[dev].chans| {
          TryKeepsChans(devs[dev], c, refCount, env(Id(dev, c)));
          var (d, o) := TryExclusive(devs[dev], c, refCount, env(Id(dev, c)));
          var devs1 := devs[dev := d];
          if o == NoDevice {
            RequestIdle(devs1, list[..i] + list[i + 1..], i, mask, fn, refCount, env);
          } else if o == Failed {
            RequestIdle(devs1, list, i + 1, mask, fn, refCount, env);
          }
        }
    }
  }

  /** The channel that a request hands out, if any. */
  function ChanFor(e: Engine, env: DriverAnswers): Option<Id>
    requires Wf(e)
  {
    RequestFrom(e.devs, e.list, 0, {MEMCPY}, _ => true, e.refCount, env).chan
  }

  function ChanOf(e: Engine, env: DriverAnswers): Option<Id> { if Wf(e) then ChanFor(e, env) else None }

  /** One of the requests came back empty, in some state of the engine. */
  ghost predicate Refused(env: seq<DriverAnswers>) {
    exists e: Engine, i: nat :: i < |env| && Inv(e) && ChanOf(e, env[i]) == None
  }

  function Ask(env: DriverAnswers): Action { DoRequest({MEMCPY}, _ => true, env) }

  /** Nobody else holds it. */
  lemma GrantedFresh(e: Engine, env: DriverAnswers)
    requires Inv(e)
    ensures ChanFor(e, env).Some? ==> ChanFor(e, env).value !in e.held
    ensures Enabled(e, Ask(env))
    ensures Apply(e, Ask(env)).held == if ChanFor(e, env).Some? then e.held + {ChanFor(e, env).value} else e.held
  {
    RequestIdle(e.devs, e.list, 0, {MEMCPY}, _ => true, e.refCount, env);
  }

  /** Only a release takes a channel away from its holder. */
  lemma HeldKept(e: Engine, a: Action, id: Id)
    requires Enabled(e, a) && id in e.held && a != DoRelease(id)
    ensures id in Apply(e, a).held
  {}

  // ----- the policy's own state

  /** list_chan_prio: channels, their priorities and how many there are. */
  datatype Chans = Chans(chan: seq<Option<Id>>, prio: seq<nat>, size: nat)

  /** The first `size` entries are different channels, the rest are empty. */
  predicate ListOk(l: Chans) {
    && |l.chan| == |l.prio| == MAX_CHAN && l.size <= MAX_CHAN
    && (forall i :: 0 <= i < MAX_CHAN ==> (l.chan[i].Some? <==> i < l.size))
    && (forall i, j :: 0 <= i < j < l.size ==> l.chan[i] != l.chan[j])
  }

  /** The channels among the first `n` entries whose priority is below `priority`. */
  function Below(l: Chans, priority: nat, n: nat): set<Id>
    requires n <= |l.chan| == |l.prio|
  {
    if n == 0 then {}
    else Below(l, priority, n - 1) +
         (if l.prio[n - 1] > priority && l.chan[n - 1].Some? then {l.chan[n - 1].value} else {})
  }

  /** The channels in the list. */
  function Members(l: Chans, n: nat): set<Id>
    requires n <= |l.chan|
  {
    if n == 0 then {}
    else Members(l, n - 1) + (if l.chan[n - 1].Some? then {l.chan[n - 1].value} else {})
  }

  /** Priorities in order, the first of them the high one. */
  predicate Ranked(l: Chans) {
    |l.prio| == MAX_CHAN && forall i :: 0 <= i < MAX_CHAN ==> l.prio[i] == HIGH + i
  }

  lemma {:induction false} BelowMembers(l: Chans, priority: nat, n: nat)
    requires n <= |l.chan| == |l.prio|
    ensures Below(l, priority, n) <= Members(l, n)
  {
    if n > 0 { BelowMembers(l, priority, n - 1); }
  }

  lemma {:induction false} MembersAre(l: Chans, n: nat, id: Id)
    requires n <= |l.chan|
    ensures id in Members(l, n) <==> exists i :: 0 <= i < n && l.chan[i] == Some(id)
  {
    if n > 0 { MembersAre(l, n - 1, id); }
  }

  lemma {:induction false} BelowAre(l: Chans, priority: nat, n: nat, id: Id)
    requires n <= |l.chan| == |l.prio|
    ensures id in Below(l, priority, n) <==> exists i :: 0 <= i < n && l.prio[i] > priority && l.chan[i] == Some(id)
  {
    if n > 0 { BelowAre(l, priority, n - 1, id); }
  }

  lemma {:induction false} MembersPrefix(a: Chans, b: Chans, n: nat)
    requires n <= |a.chan| && n <= |b.chan| && forall i :: 0 <= i < n ==> a.chan[i] == b.chan[i]
    ensures Members(a, n) == Members(b, n)
  {
    if n > 0 { MembersPrefix(a, b, n - 1); }
  }

  class Policy {
    var engine: Engine
    var mine: set<Id>                // channels requested and not yet released
    var list: Chans
    var suspended: set<Id>           // channels that the hardware holds still
    var running: bool                // the timer is started
    var tick: nat
    var overruns: nat
    ghost var calls: nat             // callbacks since the start

    ghost predicate Valid()
      reads this
    {
      && Inv(engine) && mine <= engine.held
      && ListOk(list) && Members(list, list.size) <= mine && suspended <= mine
      && (if running && list.size > 0 then Regular() else suspended !! Members(list, list.size))
    }

    /** After `calls` callbacks. */
    ghost predicate Regular()
      reads this
    {
      && ListOk(list) && running && list.size == MAX_CHAN && Ranked(list)
      && suspended * Members(list, MAX_CHAN) == (if calls % 2 == 1 then Below(list, HIGH, MAX_CHAN) else {})
      && tick == (if calls % 2 == 1 then 1 else MAX_QUANTUM)
    }

    constructor (e: Engine)
      requires Inv(e)
      ensures Valid() && !running && list.size == 0 && engine == e && mine == {} && suspended == {}
    {
      engine, mine, suspended, running, tick, overruns, calls := e, {}, {}, false, 0, 0, 0;
      list := Chans([None, None, None, None], [LOW, LOW, LOW, LOW], 0);
    }

    /** What other users of the engine do meanwhile; they do not release what they do not hold. */
    method Others(acts: seq<Action>)
      requires Inv(engine) && mine <= engine.held
      modifies this`engine
      ensures Inv(engine) && mine <= engine.held
    {
      hide Inv, Apply, Enabled;
      for i := 0 to |acts|
        invariant Inv(engine) && mine <= engine.held
      {
        var a := acts[i];
        if Enabled(engine, a) && !(a.DoRelease? && a.id in mine) {
          DmaEngineProof.StepInv(engine, a);
          forall id | id in mine ensures id in Apply(engine, a).held { HeldKept(engine, a, id); }
          engine := Apply(engine, a);
        }
      }
    }

    /** dma_request_channel */
    method Request(env: DriverAnswers) returns (chan: Option<Id>)
      requires Inv(engine) && mine <= engine.held
      modifies this`engine, this`mine
      ensures Inv(engine) && mine <= engine.held
      ensures chan.Some? ==> chan.value !in old(mine) && mine == old(mine) + {chan.value}
      ensures chan.None? ==> mine == old(mine)
      ensures chan == ChanOf(old(engine), env)
    {
      GrantedFresh(engine, env);
      DmaEngineProof.StepInv(engine, Ask(env));
      InvWf(engine);
      hide Inv, Apply, Enabled, ChanFor, Wf;
      chan := ChanFor(engine, env);
      engine := Apply(engine, Ask(env));
      if chan.Some? { mine := mine + {chan.value}; }
    }

    /** dma_release_channel, of a channel that runs. */
    method Release(id: Id)
      requires Inv(engine) && mine <= engine.held && id in mine && id !in suspended
      modifies this`engine, this`mine
      ensures Inv(engine) && mine <= engine.held && mine == old(mine) - {id}
    {
      InvWf(engine);
      DmaEngineProof.StepInv(engine, DoRelease(id));
      forall x | x in mine && x != id ensures x in Apply(engine, DoRelease(id)).held {
        HeldKept(engine, DoRelease(id), x);
      }
      hide Inv;
      engine := Apply(engine, DoRelease(id));
      mine := mine - {id};
    }

    /** release_dma_chan_prio: needs the channels of the list to run. */
    method ReleaseAll()
      requires Inv(engine) && mine <= engine.held
      requires ListOk(list) && Members(list, list.size) <= mine && suspended !! Members(list, list.size)
      modifies this`engine, this`mine, this`list
      ensures Inv(engine) && mine <= engine.held && ListOk(list) && list.size == 0
      ensures mine == old(mine) - Members(old(list), old(list).size)
    {
      hide Inv, Members;
      ghost var was := list;
      ghost var others := mine - Members(was, was.size);
      RestAll(list);
      var i := 0;
      while i < list.size
        invariant Inv(engine) && mine <= engine.held
        invariant |list.chan| == |list.prio| == MAX_CHAN && i <= list.size == was.size
        invariant forall k :: 0 <= k < MAX_CHAN ==> list.chan[k] == if k < i then None else was.chan[k]
        invariant mine == others + Rest(was, i) && Rest(was, i) <= Members(was, was.size)
      {
        RestNext(was, i);
        Release(list.chan[i].value);
        list := list.(chan := list.chan[i := None]);
        i := i + 1;
      }
      list := list.(size := 0);
    }

    /** complete_dma_chan_prio; `acts[i]` is what others do before request `i`. */
    method Complete(env: seq<DriverAnswers>, acts: seq<seq<Action>>) returns (ok: bool)
      requires Inv(engine) && mine <= engine.held && suspended <= mine && |env| == |acts| == MAX_CHAN
      requires ListOk(list) && list.size == 0
      modifies this`engine, this`mine, this`list
      ensures Inv(engine) && mine <= engine.held && ListOk(list)
      ensures mine == old(mine) + Members(list, list.size) && old(mine) !! Members(list, list.size)
      ensures list.size == if ok then MAX_CHAN else 0
      ensures !ok ==> Refused(env)
    {
      hide Inv, Members, ChanOf;
      NoMembers(list);
      for i := 0 to MAX_CHAN
        invariant Inv(engine) && mine <= engine.held
        invariant ListOk(list) && list.size == i
        invariant mine == old(mine) + Members(list, i) && old(mine) !! Members(list, i)
      {
        Others(acts[i]);
        ghost var e := engine;
        var chan := Request(env[i]);
        assert chan.None? ==> Inv(e) && ChanOf(e, env[i]) == None;
        if chan.Some? {
          AddChan(list, chan.value);
          list := list.(chan := list.chan[i := chan], size := i + 1);
        } else {
          ReleaseAll();
          NoMembers(list);
          return false;
        }
      }
      ok := true;
    }

    /** supend_chan_prio */
    method Suspend(priority: nat)
      requires ListOk(list)
      modifies this`suspended
      ensures suspended == old(suspended) + Below(list, priority, list.size)
    {
      for i := 0 to list.size
        invariant suspended == old(suspended) + Below(list, priority, i)
      {
        if list.prio[i] > priority { suspended := suspended + {list.chan[i].value}; }
      }
    }

    /** resume_chan_prio */
    method Resume(priority: nat)
      requires ListOk(list)
      modifies this`suspended
      ensures suspended == old(suspended) - Below(list, priority, list.size)
    {
      for i := 0 to list.size
        invariant suspended == old(suspended) - Below(list, priority, i)
      {
        if list.prio[i] > priority { suspended := suspended - {list.chan[i].value}; }
      }
    }

    /** prio_hrtimer_callback; `passed` is the number of periods by which the timer was forwarded. */
    method Callback(passed: nat)
      requires Valid() && running
      modifies this`suspended, this`tick, this`overruns, this`calls
      ensures Valid() && calls == old(calls) + 1
      ensures 1 <= tick <= MAX_QUANTUM
      ensures list.size > 0 ==> forall k :: 0 <= k < MAX_CHAN ==>
                list.chan[k].Some? && (list.chan[k].value in suspended <==> calls % 2 == 1 && k > 0)
      ensures suspended - Members(list, list.size) == old(suspended) - Members(list, list.size)
      ensures overruns == old(overruns) + (if passed > 1 then 1 else 0)
    {
      hide Inv, ListOk, Below, Members, Ranked;
      Toggled(list, suspended, calls, tick);
      Toggle();
      if passed > 1 { overruns := overruns + 1; }
      if list.size > 0 { RegularList(list); }
    }

    /** The call of the tick's function. */
    method Toggle()
      requires ListOk(list)
      modifies this`suspended, this`tick, this`calls
      ensures tick == old(tick) % MAX_QUANTUM + 1 && calls == old(calls) + 1
      ensures suspended == Switched(old(suspended), Below(list, HIGH, list.size), old(tick))
    {
      tick := tick % MAX_QUANTUM;
      if tick == 0 { Suspend(HIGH); } else { Resume(HIGH); }
      tick := tick + 1;
      calls := calls + 1;
    }

    /** start_policy_prio2: four new channels, or none.  Channels held before stay held: a second start
        forgets those of the first. */
    method Start(env: seq<DriverAnswers>, acts: seq<seq<Action>>) returns (r: int)
      requires Valid() && |env| == |acts| == MAX_CHAN
      modifies this
      ensures Valid() && suspended == old(suspended)
      ensures mine == old(mine) + Members(list, list.size) && old(mine) !! Members(list, list.size)
      ensures r == MAX_CHAN || r == -1
      ensures r == MAX_CHAN ==> Regular() && calls == 0
      ensures r == -1 ==> running == old(running) && list.size == 0 && Refused(env)
    {
      hide Inv, Below;
      list := Chans([None, None, None, None], [LOW, LOW, LOW, LOW], 0);
      var ok := Complete(env, acts);
      hide Members;
      if !ok {
        NoMembers(list);
        return -1;
      }
      ghost var was := list;
      Rank();
      MembersPrefix(was, list, MAX_CHAN);
      tick, overruns, calls, running := MAX_QUANTUM, 0, 0, true;
      return list.size;
    }

    /** Priorities in the order of the list. */
    method Rank()
      requires ListOk(list) && list.size == MAX_CHAN
      modifies this`list
      ensures list == old(list).(prio := list.prio) && Ranked(list)
    {
      var priority := HIGH;
      for i := 0 to list.size
        invariant priority == HIGH + i && |list.prio| == MAX_CHAN && list == old(list).(prio := list.prio)
        invariant forall k :: 0 <= k < i ==> list.prio[k] == HIGH + k
      {
        list := list.(prio := list.prio[i := priority]);
        priority := priority + 1;
      }
    }

    /** stop_policy_prio: the channels of the list are resumed, then released. */
    method Stop()
      requires Valid()
      modifies this
      ensures Valid() && !running && list.size == 0
      ensures mine == old(mine) - Members(old(list), old(list).size)
      ensures suspended == old(suspended) - Members(old(list), old(list).size)
    {
      BelowMembers(list, HIGH, list.size);
      hide Inv, Members, Below;
      running := false;
      Resume(HIGH);
      tick := 0;
      ReleaseAll();
      NoMembers(list);
    }
  }

  /** What a valid running policy means: the lower channels stand still after an odd number of
      callbacks, the high-priority channel never does. */
  lemma SuspendedWhich(l: Chans, k: nat, id: Id)
    requires ListOk(l) && l.size == MAX_CHAN && Ranked(l) && k < MAX_CHAN && l.chan[k] == Some(id)
    ensures id in Below(l, HIGH, MAX_CHAN) <==> k != 0
  {
    BelowAre(l, HIGH, MAX_CHAN, id);
  }

  /** What a callback at `tick` makes of the suspended channels. */
  function Switched(suspended: set<Id>, below: set<Id>, tick: nat): set<Id> {
    if tick % MAX_QUANTUM == 0 then suspended + below else suspended - below
  }

  /** The parity of a regular list goes on; channels that are not in the list stay as they are. */
  lemma Toggled(l: Chans, suspended: set<Id>, calls: nat, tick: nat)
    requires ListOk(l)
    ensures var below, members := Below(l, HIGH, l.size), Members(l, l.size);
            var s := Switched(suspended, below, tick);
            && below <= members && s - members == suspended - members && s <= suspended + members
            && (l.size == 0 ==> members == {})
            && (suspended * members == (if calls % 2 == 1 then below else {})
                && tick == (if calls % 2 == 1 then 1 else MAX_QUANTUM)
                ==> s * members == (if (calls + 1) % 2 == 1 then below else {}))
  {
    BelowMembers(l, HIGH, l.size);
    if l.size == 0 { NoMembers(l); }
    hide Below, Members;
  }

  /** The same for all four. */
  lemma RegularList(l: Chans)
    requires ListOk(l) && l.size == MAX_CHAN && Ranked(l)
    ensures forall k :: 0 <= k < MAX_CHAN ==>
              && l.chan[k].Some? && l.chan[k].value in Members(l, MAX_CHAN)
              && (l.chan[k].value in Below(l, HIGH, MAX_CHAN) <==> k > 0)
  {
    hide Below, Members;
    forall k | 0 <= k < MAX_CHAN
      ensures l.chan[k].Some? && l.chan[k].value in Members(l, MAX_CHAN)
      ensures l.chan[k].value in Below(l, HIGH, MAX_CHAN) <==> k > 0
    {
      SuspendedWhich(l, k, l.chan[k].value);
      MembersAre(l, MAX_CHAN, l.chan[k].value);
    }
  }

  /** The channels from entry `i` on. */
  function Rest(l: Chans, i: nat): set<Id>
    requires ListOk(l)
    decreases l.size - i
  {
    if i >= l.size then {} else {l.chan[i].value} + Rest(l, i + 1)
  }

  lemma {:induction false} RestBehind(l: Chans, i: nat, k: nat)
    requires ListOk(l) && k < i <= l.size
    ensures l.chan[k].value !in Rest(l, i)
    decreases l.size - i
  {
    if i < l.size { RestBehind(l, i + 1, k); }
  }

  lemma RestNext(l: Chans, i: nat)
    requires ListOk(l) && i < l.size
    ensures l.chan[i].value in Rest(l, i) && Rest(l, i) - {l.chan[i].value} == Rest(l, i + 1)
  {
    RestBehind(l, i + 1, i);
  }

  lemma {:induction false} RestFrom(l: Chans, i: nat)
    requires ListOk(l) && i <= l.size
    ensures Members(l, i) + Rest(l, i) == Members(l, l.size)
    decreases l.size - i
  {
    if i < l.size { RestFrom(l, i + 1); }
  }

  lemma RestAll(l: Chans)
    requires ListOk(l)
    ensures Rest(l, 0) == Members(l, l.size)
  {
    RestFrom(l, 0);
  }

  lemma NoMembers(l: Chans)
    ensures Members(l, 0) == {}
  {}

  lemma AddChan(l: Chans, id: Id)
    requires ListOk(l) && l.size < MAX_CHAN && id !in Members(l, l.size)
    ensures var l' := l.(chan := l.chan[l.size := Some(id)], size := l.size + 1);
            ListOk(l') && Members(l', l.size + 1) == Members(l, l.size) + {id}
  {
    var l' := l.(chan := l.chan[l.size := Some(id)], size := l.size + 1);
    MembersPrefix(l, l', l.size);
    forall i | 0 <= i < l.size ensures l.chan[i] != Some(id) { MembersAre(l, l.size, id); }
  }

  lemma InvWf(e: Engine)
    requires Inv(e)
    ensures Wf(e) && forall id :: id in e.held ==> Enabled(e, DoRelease(id))
  {}
}
