/**
 The per-CPU reference counters of a loadable module and the protocol by which
 `delete_module` decides that the module may be freed.

 Every CPU owns two words, `incs` and `decs`.  Getting a reference bumps `incs`
 of the CPU its holder runs on, putting it bumps `decs` of the CPU its holder runs on
 then, so neither difference `incs - decs` of one CPU means anything by itself.
 `module_refcount` adds up all the `decs`, then all the `incs`, one load at a time,
 while other tasks keep counting.

 The protocol is a step system.  One step is one load or store of shared state.
 Counters are kept here as all-time totals; the word that the code sees is the
 total modulo 2^64.
 */
module ModuleRefcount {

  const WORD: nat := 0x1_0000_0000_0000_0000

  datatype LoadState = Coming | Live | Going

  // A task is either outside, or between the liveness test and the increment of
  // `try_module_get`, with preemption disabled.
  datatype TaskPc = Outside | SawLive

  // A scan by `module_refcount`.  `accDecs` and `accIncs` are the two words of the code.
  // `rawDecs`, `rawIncs` are the same sums without wrap-around; `base` is the number of
  // puts made before the scan began; `midIncs`, `midDecs` are the counters at the instant
  // between the two passes.  The last five are history: no step reads them.
  datatype Scan =
    | DecPass(k: nat, accDecs: nat, rawDecs: nat, base: nat)
    | IncPass(k: nat, accDecs: nat, accIncs: nat, rawDecs: nat, rawIncs: nat, base: nat,
              midIncs: seq<nat>, midDecs: seq<nat>)

  // Where the caller inside `delete_module` stands.
  datatype DeleterPc =
    | NotDeleting
    | Synchronizing(waitFor: set<nat>)  // state stored as GOING; waiting in synchronize_sched
    | Scanning(scan: Scan)              // inside module_refcount, called until it returns 0
    | Passed                            // saw 0: runs mod->exit()
    | Freed                             // free_module has run

  // Someone who reads the count of a module in any state: show_refcnt, print_unload_info.
  datatype Observer = NotLooking | Looking(scan: Scan)

  datatype Module = Module(
    state: LoadState,
    incs: seq<nat>,      // per CPU
    decs: seq<nat>,      // per CPU
    held: seq<nat>,      // per task: references it owns
    pc: seq<TaskPc>,     // per task
    deleter: DeleterPc,
    observer: Observer)

  datatype Action =
    | InitDone
    | TryGetTest(task: nat)             // try_module_get: module_is_live() answered true
    | TryGetInc(task: nat, cpu: nat)    // ... and the increment that follows
    | BareGet(task: nat, cpu: nat)      // __module_get by a task that owns a reference
    | Put(task: nat, cpu: nat)          // module_put
    | HandOver(task: nat, to: nat)      // a reference changes owner
    | DeleteBlocking                    // mod->state = GOING, then synchronize_sched()
    | SyncDone
    | DeleteNonBlocking                 // stop_machine(__try_stop_module)
    | ScanLoad                          // one load of the deleter's module_refcount, or its return
    | LookStart                         // an observer calls module_refcount,
    | LookLoad                          // makes one load,
    | LookReturn                        // and returns

  function Total(s: seq<nat>, k: nat): nat
    requires k <= |s|
  {
    if k == 0 then 0 else Total(s, k - 1) + s[k - 1]
  }

  function Sum(s: seq<nat>): nat { Total(s, |s|) }

  /** References in existence: what `module_refcount` is meant to measure. */
  function TrueCount(m: Module): nat { Sum(m.held) }

  predicate Shape(m: Module) {
    && |m.incs| == |m.decs|
    && |m.held| == |m.pc|
  }

  /** The value `incs - decs` in 64-bit arithmetic. */
  function WordDiff(incs: nat, decs: nat): (r: nat)
    ensures r < WORD
  {
    (incs - decs) % WORD
  }

  predicate Enabled(m: Module, a: Action) {
    && Shape(m)
    && match a
       case InitDone => m.state == Coming
       case TryGetTest(t) => t < |m.pc| && m.pc[t] == Outside && m.state != Going
       case TryGetInc(t, c) => t < |m.pc| && m.pc[t] == SawLive && c < |m.incs|
       case BareGet(t, c) => t < |m.pc| && m.pc[t] == Outside && m.held[t] > 0 && c < |m.incs|
       case Put(t, c) => t < |m.pc| && m.pc[t] == Outside && m.held[t] > 0 && c < |m.decs|
       case HandOver(t, u) => t < |m.pc| && u < |m.pc| && t != u && m.held[t] > 0
       case DeleteBlocking => m.deleter == NotDeleting && m.state == Live
       case SyncDone => m.deleter.Synchronizing? && m.deleter.waitFor == {}
       case DeleteNonBlocking =>
         && m.deleter == NotDeleting && m.state == Live
         // Every CPU runs the stopper, so no task sits in a preemption-disabled section.
         && (forall t :: 0 <= t < |m.pc| ==> m.pc[t] == Outside)
       case ScanLoad => m.deleter == Passed || (m.deleter.Scanning? && ScanInRange(m, m.deleter.scan))
       case LookStart => m.observer == NotLooking
       case LookLoad => m.observer.Looking? && ScanInRange(m, m.observer.scan) && !Finished(m, m.observer.scan)
       case LookReturn => m.observer.Looking? && Finished(m, m.observer.scan)
  }

  predicate ScanInRange(m: Module, s: Scan) {
    s.k <= |m.incs| == |m.decs|
  }

  /** Both passes are made: only the subtraction is left. */
  predicate Finished(m: Module, s: Scan) {
    s.IncPass? && s.k == |m.incs|
  }

  /** What `module_refcount` returns. */
  function Answer(s: Scan): nat
    requires s.IncPass?
  {
    WordDiff(s.accIncs, s.accDecs)
  }

  function StartScan(m: Module): Scan { DecPass(0, 0, 0, Sum(m.decs)) }

  /** One load, or the barrier between the passes. */
  function ScanNext(m: Module, s: Scan): Scan
    requires ScanInRange(m, s) && !Finished(m, s)
  {
    match s
    case DecPass(k, acc, raw, base) =>
      if k < |m.decs|
      then DecPass(k + 1, (acc + m.decs[k] % WORD) % WORD, raw + m.decs[k], base)
      else IncPass(0, acc, 0, raw, 0, base, m.incs, m.decs)
    case IncPass(k, accD, accI, rawD, rawI, base, mi, md) =>
      IncPass(k + 1, accD, (accI + m.incs[k] % WORD) % WORD, rawD, rawI + m.incs[k], base, mi, md)
  }

  function InSection(m: Module): set<nat> {
    set t: nat | t < |m.pc| && m.pc[t] == SawLive
  }

  function Apply(m: Module, a: Action): Module
    requires Enabled(m, a)
  {
    match a
    case InitDone => m.(state := Live)
    case TryGetTest(t) => m.(pc := m.pc[t := SawLive])
    case TryGetInc(t, c) =>
      m.(pc := m.pc[t := Outside],
         incs := m.incs[c := m.incs[c] + 1],
         held := m.held[t := m.held[t] + 1],
         deleter := if m.deleter.Synchronizing?
                    then Synchronizing(m.deleter.waitFor - {t}) else m.deleter)
    case BareGet(t, c) =>
      m.(incs := m.incs[c := m.incs[c] + 1], held := m.held[t := m.held[t] + 1])
    case Put(t, c) =>
      m.(decs := m.decs[c := m.decs[c] + 1], held := m.held[t := m.held[t] - 1])
    case HandOver(t, u) =>
      m.(held := m.held[t := m.held[t] - 1][u := m.held[u] + 1])
    case DeleteBlocking =>
      m.(state := Going, deleter := Synchronizing(InSection(m)))
    case SyncDone => m.(deleter := Scanning(StartScan(m)))
    case DeleteNonBlocking =>
      if WordDiff(Sum(m.incs), Sum(m.decs)) != 0
      then m  // -EWOULDBLOCK
      else m.(state := Going, deleter := Scanning(StartScan(m)))
    case ScanLoad =>
      if m.deleter == Passed then m.(deleter := Freed)
      else if !Finished(m, m.deleter.scan) then m.(deleter := Scanning(ScanNext(m, m.deleter.scan)))
      else if Answer(m.deleter.scan) == 0 then m.(deleter := Passed)
      else m.(deleter := Scanning(StartScan(m)))
    case LookStart => m.(observer := Looking(StartScan(m)))
    case LookLoad => m.(observer := Looking(ScanNext(m, m.observer.scan)))
    case LookReturn => m.(observer := NotLooking)
  }

  // ----- sums

  lemma {:induction false} TotalUpdate(s: seq<nat>, i: nat, v: nat, k: nat)
    requires i < |s| && k <= |s|
    ensures Total(s[i := v], k) == Total(s, k) + (if i < k then v - s[i] else 0)
  {
    if k > 0 { TotalUpdate(s, i, v, k - 1); }
  }

  lemma {:induction false} TotalMonotone(a: seq<nat>, b: seq<nat>, k: nat)
    requires k <= |a| == |b|
    requires forall i :: 0 <= i < k ==> a[i] <= b[i]
    ensures Total(a, k) <= Total(b, k)
  {
    if k > 0 { TotalMonotone(a, b, k - 1); }
  }

  lemma {:induction false} TotalGrows(s: seq<nat>, j: nat, k: nat)
    requires j <= k <= |s|
    ensures Total(s, j) <= Total(s, k)
    ensures j < k ==> Total(s, j) + s[j] <= Total(s, k)
  {
    if j < k { TotalGrows(s, j, k - 1); }
  }

  lemma {:induction false} SumZero(s: seq<nat>, i: nat)
    requires i < |s| && Sum(s) == 0
    ensures s[i] == 0
  {
    TotalGrows(s, i, |s|);
  }

  lemma AddMod(a: nat, b: nat)
    ensures (a % WORD + b % WORD) % WORD == (a + b) % WORD
  {
    var q := a / WORD + b / WORD;
    assert a + b == q * WORD + (a % WORD + b % WORD);
  }

  lemma DiffMod(a: nat, b: nat)
    requires b <= a
    ensures WordDiff(a % WORD, b % WORD) == (a - b) % WORD
  {
    var q := a / WORD - b / WORD;
    assert a - b == q * WORD + (a % WORD - b % WORD);
  }

  // ----- invariant

  /** Gets and puts balance against the references that tasks own. */
  predicate Conserved(m: Module) {
    TrueCount(m) == Sum(m.incs) - Sum(m.decs)
  }

  predicate Below(a: seq<nat>, b: seq<nat>) {
    |a| == |b| && forall i :: 0 <= i < |a| ==> a[i] <= b[i]
  }

  /** The true count at the instant between the two passes. */
  function MidCount(s: Scan): int
    requires s.IncPass?
  {
    Sum(s.midIncs) - Sum(s.midDecs)
  }

  predicate ScanInv(m: Module, s: Scan) {
    && s.k <= |m.incs| == |m.decs|
    && s.accDecs == s.rawDecs % WORD
    && match s
       case DecPass(k, _, raw, base) =>
         && raw <= Total(m.decs, k)
         && base <= raw + Sum(m.decs) - Total(m.decs, k)
       case IncPass(k, _, accI, rawD, rawI, base, mi, md) =>
         && accI == rawI % WORD
         && Below(mi, m.incs) && Below(md, m.decs)
         && base <= rawD <= Sum(md) <= Sum(mi)
         && Total(mi, k) <= rawI <= Total(m.incs, k)
  }

  /** Counters and owned references balance, and an observer's scan is on its way. */
  predicate CountInv(m: Module) {
    && Shape(m)
    && Conserved(m)
    && (m.observer.Looking? ==> ScanInv(m, m.observer.scan))
  }

  /** The deleter scans when no reference can come out of nothing: a count of 0 stays 0. */
  predicate DeleterScanInv(m: Module, s: Scan) {
    ScanInv(m, s) && (s.IncPass? && MidCount(s) == 0 ==> TrueCount(m) == 0)
  }

  predicate NobodyInSection(m: Module) {
    forall t :: 0 <= t < |m.pc| ==> m.pc[t] == Outside
  }

  ghost predicate Inv(m: Module) {
    && CountInv(m)
    && (m.deleter != NotDeleting ==> m.state == Going)
    && (m.deleter.Synchronizing? ==> m.deleter.waitFor == InSection(m))
    && (m.deleter.Scanning? || m.deleter.Passed? || m.deleter.Freed? ==> NobodyInSection(m))
    && (m.deleter.Scanning? ==> DeleterScanInv(m, m.deleter.scan))
    && (m.deleter.Passed? || m.deleter.Freed? ==> TrueCount(m) == 0)
  }

  predicate Init(m: Module) {
    && Shape(m)
    && m.state == Coming && m.deleter == NotDeleting && m.observer == NotLooking
    && (forall i :: 0 <= i < |m.incs| ==> m.incs[i] == 0 && m.decs[i] == 0)
    && (forall t :: 0 <= t < |m.held| ==> m.held[t] == 0 && m.pc[t] == Outside)
  }

  /** The counters are 64 bits wide: the references there were when a scan began, plus the
      gets made since, must not reach 2^64.  Otherwise a wrapped difference of 0 says nothing. */
  predicate Small(m: Module, s: Scan) { Sum(m.incs) - s.base < WORD }

  predicate NoWrap(m: Module) { m.deleter.Scanning? ==> Small(m, m.deleter.scan) }

  lemma {:induction false} AllZero(s: seq<nat>, k: nat)
    requires k <= |s| && forall i :: 0 <= i < k ==> s[i] == 0
    ensures Total(s, k) == 0
  {
    if k > 0 { AllZero(s, k - 1); }
  }

  lemma InitInv(m: Module)
    requires Init(m)
    ensures Inv(m)
  {
    AllZero(m.incs, |m.incs|);
    AllZero(m.decs, |m.decs|);
    AllZero(m.held, |m.held|);
  }

  // ----- one scan

  lemma CounterBumpKeepsScan(m: Module, m': Module, s: Scan, c: nat)
    requires Shape(m) && Shape(m') && ScanInv(m, s) && c < |m.incs|
    requires || (m'.incs == m.incs[c := m.incs[c] + 1] && m'.decs == m.decs)
             || (m'.decs == m.decs[c := m.decs[c] + 1] && m'.incs == m.incs)
    ensures ScanInv(m', s)
  {
    TotalUpdate(m.incs, c, m.incs[c] + 1, s.k);
    TotalUpdate(m.decs, c, m.decs[c] + 1, s.k);
    TotalUpdate(m.decs, c, m.decs[c] + 1, |m.decs|);
  }

  lemma ScanNextInv(m: Module, s: Scan)
    requires Shape(m) && Conserved(m) && ScanInv(m, s) && !Finished(m, s)
    ensures ScanInv(m, ScanNext(m, s))
  {
    match s
    case DecPass(k, acc, raw, base) =>
      if k < |m.decs| { AddMod(raw, m.decs[k]); }
    case IncPass(k, accD, accI, rawD, rawI, base, mi, md) =>
      AddMod(rawI, m.incs[k]);
  }

  /** The words subtracted at the end give the difference of the sums. */
  lemma AnswerIs(m: Module, s: Scan)
    requires ScanInv(m, s) && Finished(m, s) && Small(m, s)
    ensures Answer(s) == s.rawIncs - s.rawDecs >= MidCount(s) >= 0
  {
    DiffMod(s.rawIncs, s.rawDecs);
    assert s.rawIncs - s.rawDecs < WORD;
  }

  // ----- every step keeps the counts

  /** What a step may do to the counters. */
  predicate Bumped(m: Module, m': Module, c: nat) {
    && c < |m.incs| && c < |m.decs|
    && (|| (m'.incs == m.incs[c := m.incs[c] + 1] && m'.decs == m.decs && TrueCount(m') == TrueCount(m) + 1)
        || (m'.decs == m.decs[c := m.decs[c] + 1] && m'.incs == m.incs && TrueCount(m') == TrueCount(m) - 1))
  }

  lemma GetBumps(m: Module, a: Action)
    requires Enabled(m, a) && (a.TryGetInc? || a.BareGet?)
    ensures Bumped(m, Apply(m, a), a.cpu)
    ensures a.BareGet? ==> TrueCount(m) > 0
  {
    TotalUpdate(m.held, a.task, m.held[a.task] + 1, |m.held|);
    TotalGrows(m.held, a.task, |m.held|);
  }

  lemma PutBumps(m: Module, a: Action)
    requires Enabled(m, a) && a.Put?
    ensures Bumped(m, Apply(m, a), a.cpu) && TrueCount(m) > 0
  {
    TotalUpdate(m.held, a.task, m.held[a.task] - 1, |m.held|);
    TotalGrows(m.held, a.task, |m.held|);
  }

  lemma HandOverCounts(m: Module, a: Action)
    requires Enabled(m, a) && a.HandOver?
    ensures TrueCount(Apply(m, a)) == TrueCount(m)
  {
    var given := m.held[a.task := m.held[a.task] - 1];
    TotalUpdate(m.held, a.task, m.held[a.task] - 1, |m.held|);
    TotalUpdate(given, a.to, m.held[a.to] + 1, |m.held|);
  }

  lemma BumpConserves(m: Module, m': Module, c: nat)
    requires Shape(m) && Shape(m') && Conserved(m) && Bumped(m, m', c)
    ensures Conserved(m')
  {
    TotalUpdate(m.incs, c, m.incs[c] + 1, |m.incs|);
    TotalUpdate(m.decs, c, m.decs[c] + 1, |m.decs|);
  }

  lemma BumpCountInv(m: Module, m': Module, c: nat)
    requires CountInv(m) && Shape(m') && Bumped(m, m', c) && m'.observer == m.observer
    ensures CountInv(m')
  {
    hide ScanInv, Conserved;
    BumpConserves(m, m', c);
    if m.observer.Looking? { CounterBumpKeepsScan(m, m', m.observer.scan, c); }
  }

  lemma StartScanInv(m: Module)
    requires Shape(m)
    ensures ScanInv(m, StartScan(m))
  {}

  /** In any state of the module, with any gets and puts in between. */
  lemma CountStep(m: Module, a: Action)
    requires CountInv(m) && Enabled(m, a)
    ensures CountInv(Apply(m, a))
  {
    match a {
      case TryGetInc(_, c) => GetBumps(m, a); BumpCountInv(m, Apply(m, a), c);
      case BareGet(_, c) => GetBumps(m, a); BumpCountInv(m, Apply(m, a), c);
      case Put(_, c) => PutBumps(m, a); BumpCountInv(m, Apply(m, a), c);
      case HandOver(_, _) => HandOverCounts(m, a);
      case LookStart => StartScanInv(m);
      case LookLoad => ScanNextInv(m, m.observer.scan);
      case _ =>
    }
  }

  // ----- every step keeps the protocol

  lemma BumpDeleter(m: Module, m': Module, c: nat)
    requires Inv(m) && Shape(m') && Bumped(m, m', c) && m.deleter.Scanning? && TrueCount(m) > 0
    ensures DeleterScanInv(m', m.deleter.scan)
  {
    CounterBumpKeepsScan(m, m', m.deleter.scan, c);
  }

  lemma ScanStepInv(m: Module)
    requires Inv(m) && NoWrap(m) && m.deleter.Scanning?
    ensures Inv(Apply(m, ScanLoad))
  {
    hide ScanInv;
    var s := m.deleter.scan;
    InRange(m, s);
    CountStep(m, ScanLoad);
    SameCounters(m, Apply(m, ScanLoad));
    if Finished(m, s) {
      AnswerIs(m, s);
      StartScanInv(m);
    } else {
      ScanNextInv(m, s);
    }
  }

  lemma InRange(m: Module, s: Scan)
    requires ScanInv(m, s)
    ensures ScanInRange(m, s)
  {}

  lemma StepInv(m: Module, a: Action)
    requires Inv(m) && NoWrap(m) && Enabled(m, a)
    ensures Inv(Apply(m, a))
  {
    hide ScanInv, CountInv;
    assert Shape(m) && Conserved(m) by { CountShape(m); }
    CountStep(m, a);
    CountShape(Apply(m, a));
    match a {
      case TryGetInc(_, c) =>
      case BareGet(_, c) => GetBumps(m, a); if m.deleter.Scanning? { BumpDeleter(m, Apply(m, a), c); }
      case Put(_, c) => PutBumps(m, a); if m.deleter.Scanning? { BumpDeleter(m, Apply(m, a), c); }
      case HandOver(_, _) => HandOverCounts(m, a); SameCounters(m, Apply(m, a));
      case ScanLoad => if m.deleter.Scanning? { ScanStepInv(m); }
      case SyncDone => SectionEmpty(m); StartScanInv(m); SameCounters(m, Apply(m, a));
      case DeleteNonBlocking => StartScanInv(m); SameCounters(m, Apply(m, a));
      case _ => SameCounters(m, Apply(m, a));
    }
  }

  lemma SectionEmpty(m: Module)
    requires InSection(m) == {}
    ensures NobodyInSection(m)
  {
    forall t | 0 <= t < |m.pc| ensures m.pc[t] == Outside {
      assert t !in InSection(m);
    }
  }

  lemma CountShape(m: Module)
    requires CountInv(m)
    ensures Shape(m) && Conserved(m)
  {}

  lemma SameCounters(m: Module, m': Module)
    requires m'.incs == m.incs && m'.decs == m.decs
    ensures forall s :: ScanInv(m, s) ==> ScanInv(m', s)
  {}

  // ----- whole runs

  ghost predicate IsRun(run: seq<Module>, acts: seq<Action>) {
    && |run| == |acts| + 1
    && Init(run[0])
    && forall i :: 0 <= i < |acts| ==> Enabled(run[i], acts[i]) && run[i + 1] == Apply(run[i], acts[i])
  }

  lemma {:induction false} RunCounts(run: seq<Module>, acts: seq<Action>, i: nat)
    requires IsRun(run, acts) && i < |run|
    ensures CountInv(run[i])
  {
    if i == 0 {
      InitInv(run[0]);
    } else {
      hide CountInv, Apply;
      RunCounts(run, acts, i - 1);
      CountStep(run[i - 1], acts[i - 1]);
    }
  }

  lemma {:induction false} RunInv(run: seq<Module>, acts: seq<Action>, i: nat)
    requires IsRun(run, acts) && i < |run|
    requires forall j :: 0 <= j < |run| ==> NoWrap(run[j])
    ensures Inv(run[i])
  {
    if i == 0 {
      InitInv(run[0]);
    } else {
      RunInv(run, acts, i - 1);
      StepInv(run[i - 1], acts[i - 1]);
    }
  }

  // ----- the two-pass count

  /** At this state the observer has loaded all the `decs` and none of the `incs`. */
  predicate Between(m: Module) {
    m.observer.Looking? && m.observer.scan.k == (if m.observer.scan.DecPass? then |m.decs| else 0)
  }

  /** From state `j` to state `i` it is the same call. */
  predicate SameCall(acts: seq<Action>, j: nat, i: nat) {
    j <= i <= |acts| && forall n :: j <= n < i ==> !acts[n].LookStart? && !acts[n].LookReturn?
  }

  /** What the scan in `m` keeps of a state `past` between its passes. */
  predicate Since(past: Module, m: Module)
    requires past.observer.Looking?
  {
    && Below(past.incs, m.incs) && m.observer.Looking? && |m.incs| == |m.decs| == |past.decs|
    && var s, p := m.observer.scan, past.observer.scan;
       && s.rawDecs == p.rawDecs && s.k <= |m.incs|
       && (s.DecPass? ==> s.k == |m.decs|)
       && (s.IncPass? ==> Total(past.incs, s.k) <= s.rawIncs)
  }

  lemma BelowLoad(a: seq<nat>, b: seq<nat>, k: nat)
    requires Below(a, b) && k < |a|
    ensures Total(a, k + 1) <= Total(a, k) + b[k]
  {}

  lemma SinceStep(past: Module, m: Module, a: Action)
    requires past.observer.Looking? && Since(past, m) && Enabled(m, a) && !a.LookStart? && !a.LookReturn?
    ensures Since(past, Apply(m, a))
  {
    if a.LookLoad? && m.observer.scan.IncPass? {
      BelowLoad(past.incs, m.incs, m.observer.scan.k);
    }
  }

  lemma {:induction false} SinceRun(run: seq<Module>, acts: seq<Action>, j: nat, i: nat)
    requires IsRun(run, acts) && SameCall(acts, j, i) && Between(run[j])
    ensures Since(run[j], run[i])
    decreases i
  {
    RunCounts(run, acts, j);
    if i == j {
      assert run[j].observer.scan.IncPass? ==> run[j].observer.scan.rawIncs >= 0;
    } else {
      SinceRun(run, acts, j, i - 1);
      hide Since, Apply;
      SinceStep(run[j], run[i - 1], acts[i - 1]);
    }
  }

  /**
   In every interleaving, whatever the state of the module: what `module_refcount` is about to
   return in state `i` is at least the number of references at every instant `j` between its two
   passes, so a return of 0 proves that there was none then.
   */
  lemma TwoPassCount(run: seq<Module>, acts: seq<Action>, j: nat, i: nat)
    requires IsRun(run, acts) && SameCall(acts, j, i) && Between(run[j])
    requires run[i].observer.Looking? && Finished(run[i], run[i].observer.scan) && Small(run[i], run[i].observer.scan)
    ensures Answer(run[i].observer.scan) >= TrueCount(run[j])
    ensures Answer(run[i].observer.scan) == 0 ==> TrueCount(run[j]) == 0
  {
    SinceRun(run, acts, j, i);
    RunCounts(run, acts, i);
    RunCounts(run, acts, j);
    AnswerIs(run[i], run[i].observer.scan);
    DecsSeen(run[j]);
  }

  lemma DecsSeen(m: Module)
    requires CountInv(m) && Between(m)
    ensures m.observer.scan.rawDecs <= Sum(m.decs)
  {
    var s := m.observer.scan;
    if s.IncPass? { TotalMonotone(s.midDecs, m.decs, |m.decs|); }
  }

  /** Every call that is about to return has such an instant. */
  lemma {:induction false} BetweenExists(run: seq<Module>, acts: seq<Action>, i: nat) returns (j: nat)
    requires IsRun(run, acts) && i < |run| && run[i].observer.Looking? && run[i].observer.scan.IncPass?
    ensures SameCall(acts, j, i) && Between(run[j])
    decreases i
  {
    if run[i].observer.scan.k == 0 {
      j := i;
    } else {
      assert i > 0;
      assert run[i] == Apply(run[i - 1], acts[i - 1]);
      j := BetweenExists(run, acts, i - 1);
    }
  }

  predicate Unloading(m: Module) { m.deleter.Passed? || m.deleter.Freed? }

  lemma {:induction false} UnloadingIsForever(run: seq<Module>, acts: seq<Action>, i: nat, j: nat)
    requires IsRun(run, acts) && i <= j < |run|
    requires Unloading(run[i])
    ensures Unloading(run[j])
  {
    if i < j {
      UnloadingIsForever(run, acts, i, j - 1);
      assert Enabled(run[j - 1], acts[j - 1]);
    }
  }

  /** Safe unload.  Once `delete_module` has passed the zero-refcount wait, no task owns a
      reference and no task can still complete a `try_module_get`, then and ever after. */
  lemma SafeUnload(run: seq<Module>, acts: seq<Action>, i: nat, j: nat)
    requires IsRun(run, acts) && i <= j < |run|
    requires forall n :: 0 <= n < |run| ==> NoWrap(run[n])
    requires Unloading(run[i])
    ensures Unloading(run[j])
    ensures forall t :: 0 <= t < |run[j].held| ==> run[j].held[t] == 0
    ensures NobodyInSection(run[j])
    ensures j < |acts| ==> !acts[j].TryGetTest? && !acts[j].TryGetInc? && !acts[j].BareGet?
  {
    UnloadingIsForever(run, acts, i, j);
    RunInv(run, acts, j);
    forall t | 0 <= t < |run[j].held| ensures run[j].held[t] == 0 {
      SumZero(run[j].held, t);
    }
    if j < |acts| { assert Enabled(run[j], acts[j]); }
  }

  /** delete_module with O_NONBLOCK: the module goes if and only if there is no reference, and is left
      alone otherwise. */
  lemma NonBlockingDecides(run: seq<Module>, acts: seq<Action>, i: nat)
    requires IsRun(run, acts) && i < |acts| && acts[i] == DeleteNonBlocking && TrueCount(run[i]) < WORD
    ensures run[i + 1].state == Going <==> TrueCount(run[i]) == 0
    ensures TrueCount(run[i]) != 0 ==> run[i + 1] == run[i]
  {
    RunCounts(run, acts, i);
    assert Enabled(run[i], acts[i]) && run[i + 1] == Apply(run[i], acts[i]);
    hide ScanInv, IsRun;
  }

  /** A blocking delete_module goes on as soon as everyone who had seen the module alive when it was
      marked has left the section, and not before. */
  lemma GraceEnds(run: seq<Module>, acts: seq<Action>, i: nat)
    requires IsRun(run, acts) && i < |run| && run[i].deleter.Synchronizing?
    requires forall n :: 0 <= n < |run| ==> NoWrap(run[n])
    ensures Enabled(run[i], SyncDone) <==> NobodyInSection(run[i])
  {
    RunInv(run, acts, i);
    hide IsRun, CountInv;
    CountShape(run[i]);
    if NobodyInSection(run[i]) {
      assert InSection(run[i]) == {};
    } else {
      var t :| 0 <= t < |run[i].pc| && run[i].pc[t] != Outside;
      assert t in InSection(run[i]);
    }
  }

  /** A scan that nothing disturbs returns the count. */
  lemma QuietAnswer(m: Module)
    requires Shape(m) && Conserved(m) && TrueCount(m) < WORD
    ensures WordDiff(Sum(m.incs), Sum(m.decs)) == TrueCount(m)
  {}

  /** Storing GOING is not enough by itself: a task that tested the state before the store
      gains its reference after it.  This is what `synchronize_sched` waits out. */
  lemma GraceIsNeeded()
    ensures exists run: seq<Module>, acts: seq<Action> ::
              && IsRun(run, acts) && |run| > 1
              && run[|run| - 1].state == Going && TrueCount(run[|run| - 1]) == 1
              && run[|run| - 2].state == Going && TrueCount(run[|run| - 2]) == 0
  {
    var m0 := One(Coming, 0, Outside, NotDeleting);
    var m1 := One(Live, 0, Outside, NotDeleting);
    var m2 := One(Live, 0, SawLive, NotDeleting);
    var m3 := One(Going, 0, SawLive, Synchronizing({0}));
    var m4 := One(Going, 1, Outside, Synchronizing({}));
    OneCount(Going, 0, SawLive, Synchronizing({0}));
    OneCount(Going, 1, Outside, Synchronizing({}));
    EarlySteps();
    LateGet();
    hide Enabled, Apply, Init, TrueCount, One;
    var run := [m0, m1, m2, m3, m4];
    var acts := [InitDone, TryGetTest(0), DeleteBlocking, TryGetInc(0, 0)];
    assert IsRun(run, acts);
  }

  /** One CPU and one task, which has taken `n` references. */
  function One(state: LoadState, n: nat, pc: TaskPc, deleter: DeleterPc): Module {
    Module(state, [n], [0], [n], [pc], deleter, NotLooking)
  }

  lemma OneCount(state: LoadState, n: nat, pc: TaskPc, deleter: DeleterPc)
    ensures One(state, n, pc, deleter).state == state && TrueCount(One(state, n, pc, deleter)) == n
  {
    assert Total([n], 1) == Total([n], 0) + n;
  }

  lemma EarlySteps()
    ensures var m0, m1 := One(Coming, 0, Outside, NotDeleting), One(Live, 0, Outside, NotDeleting);
            Init(m0) && Enabled(m0, InitDone) && Apply(m0, InitDone) == m1
    ensures var m1, m2 := One(Live, 0, Outside, NotDeleting), One(Live, 0, SawLive, NotDeleting);
            Enabled(m1, TryGetTest(0)) && Apply(m1, TryGetTest(0)) == m2
    ensures var m2, m3 := One(Live, 0, SawLive, NotDeleting), One(Going, 0, SawLive, Synchronizing({0}));
            Enabled(m2, DeleteBlocking) && Apply(m2, DeleteBlocking) == m3
  {
    assert InSection(One(Live, 0, SawLive, NotDeleting)) == {0};
  }

  lemma LateGet()
    ensures var m := One(Going, 0, SawLive, Synchronizing({0}));
            Enabled(m, TryGetInc(0, 0)) && Apply(m, TryGetInc(0, 0)) == One(Going, 1, Outside, Synchronizing({}))
  {
    assert {0} - {0} == {};
  }

  /** `module_refcount` on counters that nobody moves (the machine is stopped): both loops
      of the code, in word arithmetic. */
  method RefcountStopped(incs: array<nat>, decs: array<nat>) returns (r: nat)
    requires incs.Length == decs.Length
    ensures r == WordDiff(Sum(incs[..]), Sum(decs[..]))
  {
    var totalIncs, totalDecs := 0, 0;
    var cpu := 0;
    while cpu < decs.Length
      invariant cpu <= decs.Length
      invariant totalDecs == Total(decs[..], cpu) % WORD
    {
      AddMod(Total(decs[..], cpu), decs[cpu]);
      totalDecs := (totalDecs + decs[cpu] % WORD) % WORD;
      cpu := cpu + 1;
    }
    cpu := 0;
    while cpu < incs.Length
      invariant cpu <= incs.Length
      invariant totalIncs == Total(incs[..], cpu) % WORD
    {
      AddMod(Total(incs[..], cpu), incs[cpu]);
      totalIncs := (totalIncs + incs[cpu] % WORD) % WORD;
      cpu := cpu + 1;
    }
    ghost var i, d := Sum(incs[..]), Sum(decs[..]);
    assert i - d == (i / WORD - d / WORD) * WORD + (totalIncs - totalDecs);
    r := WordDiff(totalIncs, totalDecs);
  }
}
