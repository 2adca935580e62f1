/** Every interleaving of the scheduler's callers, as runs over events.

    A goroutine that is between two critical sections of scheduler.go is an entry of `procs`.
    `Step` is total: an event that is not enabled leaves the state unchanged, so a run is any
    sequence of events whatever. */
module SchedulerProtocol {
  import opened InstancePool

  datatype Goal = HttpCall | LeaseCall(timeout: int)

  datatype Proc =
    | Registering(func: string)                              // function added, metadata not yet saved
    | Checked(func: string, timeout: int)                    // AcquireInstance before its call of Acquire
    | ColdStart(goal: Goal, func: string, port: nat, code: nat)  // Acquire between its two sections
    | Holding(goal: Goal, func: string, inst: string)        // Acquire has returned this instance
    | Prewarming(func: string, port: nat, code: nat)         // the goroutine of ColdStartOne
    | Uploading(func: string, cfg: Config)                   // UploadCode between its two sections
    | Saving(func: string, detached: set<string>)            // UploadCode after its second section

  /** `stopped` are the ids handed to stop; `issued` and `closings` record the life of leases. */
  datatype Sys = Sys(
    sh: Shared,
    procs: map<nat, Proc>,
    stopped: set<string>,
    issued: set<string>,
    closings: multiset<string>,
    nextCode: nat)

  datatype Event =
    | Register(pid: nat, func: string, cfg: Config)
    | Registered(pid: nat, saved: bool)
    | HttpAcquire(pid: nat, func: string, now: int)
    | LeaseCheck(pid: nat, func: string, source: string, trigger: string, mqId: string, requested: int, envMax: int)
    | LeaseAcquire(pid: nat, now: int)
    | Started(pid: nat, id: string, now: int)
    | StartFailed(pid: nat)
    | HttpRelease(pid: nat, now: int)
    | LeaseRecord(pid: nat, lease: string, now: int)
    | LeaseRelease(lease: string, status: LeaseStatus, now: int)
    | LeaseReap(now: int)
    | IdleReap(now: int)
    | Prewarm(pid: nat, func: string)
    | RemoveIdle(func: string, now: int)
    | DeregisterCall(func: string)
    | UploadBegin(pid: nat, func: string)
    | UploadAbort(pid: nat)
    | UploadCommit(pid: nat)
    | UploadSaved(pid: nat, saved: bool)

  function Init(functions: map<string, Config>, port: nat, nextCode: nat): Sys {
    Sys(Shared(functions, map[], map[], map[], port), map[], {}, {}, multiset{}, nextCode)
  }

  /** A proc whose backend start is running. */
  predicate Starts(p: Proc) { p.ColdStart? || p.Prewarming? }

  // ----- the steps -----

  /** The first section of Acquire, on behalf of `goal`. */
  function Acquire(s: Sys, pid: nat, goal: Goal, func: string, now: int): Sys {
    var (sh, taken) := Take(s.sh, func, now);
    match taken
    case NotFound => s.(procs := s.procs - {pid})
    case Reused(id) => s.(sh := sh, procs := s.procs[pid := Holding(goal, func, id)])
    case MustStart(port, code) => s.(sh := sh, procs := s.procs[pid := ColdStart(goal, func, port, code)])
  }

  /** The backend returned `id` and the instance is appended; a backend never returns an id twice. */
  function Start(s: Sys, pid: nat, id: string, now: int): Sys
    requires pid in s.procs && Starts(s.procs[pid])
  {
    var p := s.procs[pid];
    if id in s.sh.insts then s
    else if p.ColdStart? then
      s.(sh := AddStarted(s.sh, id, Inst(Busy, now, p.func, p.port, p.code)),
         procs := s.procs[pid := Holding(p.goal, p.func, id)])
    else
      s.(sh := AddStarted(s.sh, id, Inst(InstState.Idle, now, p.func, p.port, p.code)), procs := s.procs - {pid})
  }

  function Close(s: Sys, lease: string, status: LeaseStatus, now: int): Sys {
    if status.Unknown? || lease !in s.sh.leases || s.sh.leases[lease].inst !in s.sh.insts then s
    else
      var (sh, stops) := EndLease(s.sh, lease, status, now);
      s.(sh := sh, stopped := s.stopped + stops, closings := s.closings + multiset{lease})
  }

  function Step(s: Sys, e: Event): Sys {
    match e
    case Register(pid, func, cfg) =>
      if pid in s.procs || func in s.sh.functions then s
      else s.(sh := s.sh.(functions := s.sh.functions[func := cfg.(code := s.nextCode)]),
              procs := s.procs[pid := Registering(func)], nextCode := s.nextCode + 1)
    case Registered(pid, saved) =>
      if pid !in s.procs || !s.procs[pid].Registering? then s
      else if saved then s.(procs := s.procs - {pid})
      else s.(sh := s.sh.(functions := s.sh.functions - {s.procs[pid].func}), procs := s.procs - {pid})
    case HttpAcquire(pid, func, now) =>
      if pid in s.procs then s else Acquire(s, pid, HttpCall, func, now)
    case LeaseCheck(pid, func, source, trigger, mqId, requested, envMax) =>
      if pid in s.procs || func !in s.sh.functions || source != "mq"
         || !TriggerAllows(s.sh.functions[func], trigger, mqId) then s
      else
        var timeout := ClampLeaseTimeout(requested, s.sh.functions[func].timeout, envMax);
        s.(procs := s.procs[pid := Checked(func, timeout)])
    case LeaseAcquire(pid, now) =>
      if pid !in s.procs || !s.procs[pid].Checked? then s
      else Acquire(s, pid, LeaseCall(s.procs[pid].timeout), s.procs[pid].func, now)
    case Started(pid, id, now) =>
      if pid !in s.procs || !Starts(s.procs[pid]) then s else Start(s, pid, id, now)
    case StartFailed(pid) =>
      if pid !in s.procs || !Starts(s.procs[pid]) then s else s.(procs := s.procs - {pid})
    case HttpRelease(pid, now) =>
      if !HoldsFor(s, pid, false) then s
      else s.(sh := SetState(s.sh, s.procs[pid].inst, InstState.Idle, now), procs := s.procs - {pid})
    case LeaseRecord(pid, lease, now) =>
      if !HoldsFor(s, pid, true) || lease in s.issued then s
      else s.(sh := RecordLease(s.sh, lease, s.procs[pid].inst, s.procs[pid].goal.timeout, now),
              procs := s.procs - {pid}, issued := s.issued + {lease})
    case LeaseRelease(lease, status, now) => Close(s, lease, status, now)
    case LeaseReap(now) =>
      var (sh, stops) := ReapLeases(s.sh, now);
      s.(sh := sh, stopped := s.stopped + stops, closings := s.closings + multiset(Expired(s.sh, now)))
    case IdleReap(now) =>
      var (sh, stops) := ReapIdle(s.sh, now);
      s.(sh := sh, stopped := s.stopped + stops)
    case Prewarm(pid, func) =>
      if pid in s.procs || func !in s.sh.functions then s
      else s.(sh := s.sh.(nextPort := s.sh.nextPort + 1),
              procs := s.procs[pid := Prewarming(func, s.sh.nextPort, s.sh.functions[func].code)])
    case RemoveIdle(func, now) =>
      var (sh, stops) := ScaleDown(s.sh, func, now);
      s.(sh := sh, stopped := s.stopped + stops)
    case DeregisterCall(func) =>
      var (sh, stops) := Deregister(s.sh, func);
      s.(sh := sh, stopped := s.stopped + stops)
    case UploadBegin(pid, func) =>
      if pid in s.procs || func !in s.sh.functions then s
      else s.(procs := s.procs[pid := Uploading(func, s.sh.functions[func])])
    case UploadAbort(pid) =>
      if pid !in s.procs || !s.procs[pid].Uploading? then s else s.(procs := s.procs - {pid})
    case UploadCommit(pid) =>
      if pid !in s.procs || !s.procs[pid].Uploading? then s
      else
        var Uploading(func, cfg) := s.procs[pid];
        var (sh, detached) := CommitUpload(s.sh, func, cfg.(code := s.nextCode));
        s.(sh := sh, procs := s.procs[pid := Saving(func, detached)], nextCode := s.nextCode + 1)
    case UploadSaved(pid, saved) =>
      if pid !in s.procs || !s.procs[pid].Saving? then s
      else s.(procs := s.procs - {pid}, stopped := if saved then s.stopped + s.procs[pid].detached else s.stopped)
  }

  /** The proc holds an instance, for a lease that is not yet recorded or for an HTTP call. */
  predicate HoldsFor(s: Sys, pid: nat, lease: bool) {
    && pid in s.procs && s.procs[pid].Holding? && s.procs[pid].inst in s.sh.insts
    && s.procs[pid].goal.LeaseCall? == lease
  }

  function Run(s: Sys, es: seq<Event>): Sys
    decreases es
  {
    if es == [] then s else Run(Step(s, es[0]), es[1..])
  }

  // ----- what holds in every reachable state -----

  /** Someone who may use an instance: an HTTP call or pending acquire, or a recorded lease. */
  datatype Holder = ByProc(pid: nat) | ByLease(lease: string)

  predicate Holds(s: Sys, h: Holder, id: string) {
    match h
    case ByProc(pid) => pid in s.procs && s.procs[pid].Holding? && s.procs[pid].inst == id
    case ByLease(l) => l in s.sh.leases && s.sh.leases[l].inst == id
  }

  ghost predicate Exclusive(s: Sys) {
    && (forall h, id :: Holds(s, h, id) ==> id in s.sh.insts && s.sh.insts[id].state == Busy)
    && (forall h1, h2, id :: Holds(s, h1, id) && Holds(s, h2, id) ==> h1 == h2)
  }

  ghost predicate BusyHeld(s: Sys) {
    forall id :: Pooled(s.sh, id) && s.sh.insts[id].state != InstState.Idle ==> exists h :: Holds(s, h, id)
  }

  /** Instances handed to stop, or taken out by an upload, are in no pool. */
  ghost predicate Retired(s: Sys) {
    && (forall id :: id in s.stopped ==> id in s.sh.insts && !Pooled(s.sh, id))
    && (forall pid, id :: Detached(s, pid, id) ==> id in s.sh.insts && !Pooled(s.sh, id))
  }

  ghost predicate LeasesOnce(s: Sys) {
    forall l :: s.closings[l] + (if l in s.sh.leases then 1 else 0) == (if l in s.issued then 1 else 0)
  }

  /** What occupies a port: a backend start in progress, or an instance. */
  datatype PortUser = ByStart(pid: nat) | ByInst(id: string)

  predicate Uses(s: Sys, u: PortUser, port: nat, code: nat) {
    match u
    case ByStart(pid) => pid in s.procs && Starts(s.procs[pid]) && s.procs[pid].port == port
        && s.procs[pid].code == code
    case ByInst(id) => id in s.sh.insts && s.sh.insts[id].port == port && s.sh.insts[id].code == code
  }

  ghost predicate PortsUnique(s: Sys) {
    && (forall u, port: nat, code: nat :: Uses(s, u, port, code) ==> port < s.sh.nextPort)
    && (forall u, v, port: nat, c: nat, d: nat :: Uses(s, u, port, c) && Uses(s, v, port, d) ==> u == v)
  }

  ghost predicate CodesOld(s: Sys) {
    && (forall f :: f in s.sh.functions ==> s.sh.functions[f].code < s.nextCode)
    && (forall u, port: nat, code: nat :: Uses(s, u, port, code) ==> code < s.nextCode)
  }

  ghost predicate Inv(s: Sys) {
    WellFormed(s.sh) && Exclusive(s) && BusyHeld(s) && Retired(s) && LeasesOnce(s) && PortsUnique(s) && CodesOld(s)
  }

  /** Who held the instance of `h` before the step: recording a lease passes it on from the proc. */
  function Before(s: Sys, e: Event, h: Holder): Holder {
    if e.LeaseRecord? && HoldsFor(s, e.pid, true) && e.lease !in s.issued && h == ByLease(e.lease) then ByProc(e.pid)
    else h
  }

  /** Nobody holds the instance: it is idle or does not exist yet. */
  predicate Free(s: Sys, id: string) {
    id !in s.sh.insts || s.sh.insts[id].state == InstState.Idle
  }

  predicate TakesFree(s: Sys, e: Event, h: Holder, id: string) {
    Free(s, id) && (e.HttpAcquire? || e.LeaseAcquire? || e.Started?) && h == ByProc(e.pid)
  }

  lemma ProcBefore(s: Sys, e: Event, pid: nat, id: string)
    requires Holds(Step(s, e), ByProc(pid), id)
    ensures Holds(s, ByProc(pid), id) || TakesFree(s, e, ByProc(pid), id)
    ensures e.LeaseRecord? && HoldsFor(s, e.pid, true) && e.lease !in s.issued ==> pid != e.pid
  {
  }

  lemma LeaseBefore(s: Sys, e: Event, l: string, id: string)
    requires Holds(Step(s, e), ByLease(l), id)
    ensures Holds(s, Before(s, e, ByLease(l)), id)
  {
    hide WellFormed, Grows, Pooled;
  }

  /** A holder after a step held the instance before it, or took a free one. */
  lemma HolderBefore(s: Sys, e: Event, h: Holder, id: string)
    requires Holds(Step(s, e), h, id)
    ensures Holds(s, Before(s, e, h), id) || TakesFree(s, e, h, id)
    ensures e.LeaseRecord? && HoldsFor(s, e.pid, true) && e.lease !in s.issued ==> h != ByProc(e.pid)
  {
    match h
    case ByProc(pid) => ProcBefore(s, e, pid, id);
    case ByLease(l) => LeaseBefore(s, e, l, id);
  }

  /** A busy instance turns idle only because its holder gives it back. */
  lemma FreedByHolder(s: Sys, e: Event, id: string) returns (h: Holder)
    requires id in s.sh.insts && s.sh.insts[id].state == Busy
    ensures id in Step(s, e).sh.insts
    ensures Step(s, e).sh.insts[id].state == Busy
        || (Holds(s, h, id) && Before(s, e, h) == h && !Holds(Step(s, e), h, id))
  {
    hide WellFormed, Grows, Pooled;
    h := if e.HttpRelease? then ByProc(e.pid) else if e.LeaseRelease? then ByLease(e.lease) else ByProc(0);
    if !Stirs(e) {
      hide Step;
      InstsKept(s, e);
    }
  }

  lemma TakenIsBusy(s: Sys, e: Event, id: string)
    requires (e.HttpAcquire? || e.LeaseAcquire? || e.Started?) && TakesFree(s, e, ByProc(e.pid), id)
    requires Holds(Step(s, e), ByProc(e.pid), id) && !Holds(s, ByProc(e.pid), id)
    ensures id in Step(s, e).sh.insts && Step(s, e).sh.insts[id].state == Busy
  {
  }

  lemma StaysBusy(s: Sys, e: Event, h: Holder, id: string)
    requires Exclusive(s) && Holds(Step(s, e), h, id)
    ensures id in Step(s, e).sh.insts && Step(s, e).sh.insts[id].state == Busy
  {
    HolderBefore(s, e, h, id);
    if Holds(s, Before(s, e, h), id) {
      var k := FreedByHolder(s, e, id);
    } else {
      TakenIsBusy(s, e, id);
    }
  }

  lemma StepExclusive(s: Sys, e: Event)
    requires Exclusive(s)
    ensures Exclusive(Step(s, e))
  {
    var t := Step(s, e);
    forall h, id | Holds(t, h, id) ensures id in t.sh.insts && t.sh.insts[id].state == Busy {
      StaysBusy(s, e, h, id);
    }
    forall h1, h2, id | Holds(t, h1, id) && Holds(t, h2, id) ensures h1 == h2 {
      HolderBefore(s, e, h1, id);
      HolderBefore(s, e, h2, id);
    }
  }

  lemma StepWellFormed(s: Sys, e: Event)
    requires WellFormed(s.sh)
    ensures WellFormed(Step(s, e).sh)
  {
  }

  lemma PooledBefore(s: Sys, e: Event, id: string)
    requires WellFormed(s.sh) && Pooled(Step(s, e).sh, id)
    ensures Pooled(s.sh, id) || (e.Started? && id !in s.sh.insts && id == e.id)
  {
  }

  /** The pools stay well formed, and an instance in a pool was there before or has just been started. */
  lemma StepPools(s: Sys, e: Event)
    requires WellFormed(s.sh)
    ensures WellFormed(Step(s, e).sh)
    ensures forall id :: Pooled(Step(s, e).sh, id) ==>
        Pooled(s.sh, id) || (e.Started? && id !in s.sh.insts && id == e.id)
  {
    StepWellFormed(s, e);
    forall id | Pooled(Step(s, e).sh, id) ensures Pooled(s.sh, id) || (e.Started? && id !in s.sh.insts && id == e.id) {
      PooledBefore(s, e, id);
    }
  }

  /** The events that add an instance or change its state. */
  predicate Stirs(e: Event) {
    e.HttpAcquire? || e.LeaseAcquire? || e.Started? || e.HttpRelease? || e.LeaseRelease?
  }

  lemma InstsKept(s: Sys, e: Event)
    requires !Stirs(e)
    ensures Step(s, e).sh.insts == s.sh.insts
  {
  }

  /** If an instance is not idle after a step, it was not idle before, or the acquiring proc holds it. */
  lemma StepBusy(s: Sys, e: Event, id: string)
    requires id in Step(s, e).sh.insts && Step(s, e).sh.insts[id].state != InstState.Idle
    ensures (id in s.sh.insts && s.sh.insts[id].state != InstState.Idle)
         || ((e.HttpAcquire? || e.LeaseAcquire? || e.Started?) && Holds(Step(s, e), ByProc(e.pid), id))
  {
    hide WellFormed, Grows, Pooled;
    if !Stirs(e) {
      hide Step;
      InstsKept(s, e);
    }
  }

  lemma ProcStillHolds(s: Sys, e: Event, pid: nat, id: string)
    requires Holds(s, ByProc(pid), id)
    ensures Holds(Step(s, e), ByProc(pid), id)
         || (e.HttpRelease? && id in Step(s, e).sh.insts && Step(s, e).sh.insts[id].state == InstState.Idle)
         || (e.LeaseRecord? && Holds(Step(s, e), ByLease(e.lease), id))
  {
  }

  lemma LeaseStillHolds(s: Sys, e: Event, l: string, id: string)
    requires !e.LeaseRelease? && !e.LeaseReap?
    requires Holds(s, ByLease(l), id) && (e.LeaseRecord? ==> l in s.issued)
    ensures Holds(Step(s, e), ByLease(l), id)
  {
  }

  /** A lease that ends either retires its instance or makes it idle. */
  lemma LeaseEnded(s: Sys, e: Event, l: string, id: string)
    requires e.LeaseRelease? || e.LeaseReap?
    requires WellFormed(s.sh) && Holds(s, ByLease(l), id)
    ensures Holds(Step(s, e), ByLease(l), id) || !Pooled(Step(s, e).sh, id)
        || Step(s, e).sh.insts[id].state == InstState.Idle
  {
  }

  /** A busy instance that is still pooled after a step keeps its holder, or has just got one. */
  lemma StepBusyHeld(s: Sys, e: Event)
    requires WellFormed(s.sh) && LeasesOnce(s) && BusyHeld(s)
    ensures BusyHeld(Step(s, e))
  {
    var t := Step(s, e);
    forall id | Pooled(t.sh, id) && t.sh.insts[id].state != InstState.Idle ensures exists h :: Holds(t, h, id) {
      StepPools(s, e);
      StepBusy(s, e, id);
      if Pooled(s.sh, id) && s.sh.insts[id].state != InstState.Idle {
        var b :| Holds(s, b, id);
        match b
        case ByProc(pid) => ProcStillHolds(s, e, pid, id);
        case ByLease(l) =>
          assert s.closings[l] >= 0;
          if e.LeaseRelease? || e.LeaseReap? { LeaseEnded(s, e, l, id); } else { LeaseStillHolds(s, e, l, id); }
      }
    }
  }

  predicate Detached(s: Sys, pid: nat, id: string) {
    pid in s.procs && s.procs[pid].Saving? && id in s.procs[pid].detached
  }

  /** What is handed to stop was already out of every pool, or leaves it in this step. */
  lemma StoppedBefore(s: Sys, e: Event, id: string)
    requires WellFormed(s.sh) && id in Step(s, e).stopped
    ensures id in s.stopped || (e.UploadSaved? && Detached(s, e.pid, id))
        || (id in s.sh.insts && !Pooled(Step(s, e).sh, id))
  {
  }

  lemma DetachedBefore(s: Sys, e: Event, pid: nat, id: string)
    requires WellFormed(s.sh) && Detached(Step(s, e), pid, id)
    ensures Detached(s, pid, id) || (id in s.sh.insts && !Pooled(Step(s, e).sh, id))
  {
  }

  /** No step forgets an instance, changes where it came from, or hands out a port again. */
  lemma StepGrows(s: Sys, e: Event)
    ensures Grows(s.sh, Step(s, e).sh)
  {
  }

  lemma OnlyStartsAdd(s: Sys, e: Event)
    requires !e.Started?
    ensures Step(s, e).sh.insts.Keys == s.sh.insts.Keys
  {
    if !Stirs(e) {
      hide Step;
      InstsKept(s, e);
    }
  }

  lemma NewInst(s: Sys, e: Event, id: string)
    requires id in Step(s, e).sh.insts && id !in s.sh.insts
    ensures e.Started? && id == e.id && e.pid in s.procs && Starts(s.procs[e.pid])
    ensures var p, i := s.procs[e.pid], Step(s, e).sh.insts[id];
        i.func == p.func && i.port == p.port && i.code == p.code
    ensures e.pid in Step(s, e).procs ==> !Starts(Step(s, e).procs[e.pid])
  {
    if !e.Started? {
      hide Step;
      OnlyStartsAdd(s, e);
    }
  }

  lemma StepRetired(s: Sys, e: Event)
    requires WellFormed(s.sh) && Retired(s)
    ensures Retired(Step(s, e))
  {
    var t := Step(s, e);
    StepGrows(s, e);
    StepPools(s, e);
    forall id | id in t.stopped ensures id in t.sh.insts && !Pooled(t.sh, id) {
      StoppedBefore(s, e, id);
    }
    forall pid, id | Detached(t, pid, id) ensures id in t.sh.insts && !Pooled(t.sh, id) {
      DetachedBefore(s, e, pid, id);
    }
  }

  lemma LeasesUntouched(s: Sys, e: Event)
    requires !e.LeaseRecord? && !e.LeaseRelease? && !e.LeaseReap?
    ensures var t := Step(s, e); t.closings == s.closings && t.issued == s.issued && t.sh.leases == s.sh.leases
  {
  }

  lemma StepLeasesOnce(s: Sys, e: Event)
    requires LeasesOnce(s)
    ensures LeasesOnce(Step(s, e))
  {
    if !e.LeaseRecord? && !e.LeaseRelease? && !e.LeaseReap? { LeasesUntouched(s, e); } else { LeasesTouched(s, e); }
  }

  lemma LeasesTouched(s: Sys, e: Event)
    requires LeasesOnce(s)
    requires e.LeaseRecord? || e.LeaseRelease? || e.LeaseReap?
    ensures LeasesOnce(Step(s, e))
  {
  }

  lemma StartBefore(s: Sys, e: Event, pid: nat)
    requires pid in Step(s, e).procs && Starts(Step(s, e).procs[pid])
    ensures (pid in s.procs && s.procs[pid] == Step(s, e).procs[pid])
         || (var p := Step(s, e).procs[pid];
             && e.pid == pid && (e.HttpAcquire? || e.LeaseAcquire? || e.Prewarm?)
             && p.port == s.sh.nextPort < Step(s, e).sh.nextPort
             && p.func in s.sh.functions && p.code == s.sh.functions[p.func].code
             && Step(s, e).sh.functions == s.sh.functions)
  {
  }

  /** A port in use was in use before the step by the same start or its outcome, or has just been reserved. */
  lemma PortBefore(s: Sys, e: Event, u: PortUser, port: nat, code: nat)
    requires Uses(Step(s, e), u, port, code)
    ensures Uses(s, u, port, code)
         || (e.Started? && u == ByInst(e.id) && Uses(s, ByStart(e.pid), port, code)
              && !Uses(Step(s, e), ByStart(e.pid), port, code))
         || ((e.HttpAcquire? || e.LeaseAcquire? || e.Prewarm?) && u == ByStart(e.pid)
              && port == s.sh.nextPort < Step(s, e).sh.nextPort
             && exists f :: f in s.sh.functions && code == s.sh.functions[f].code)
  {
    match u
    case ByStart(pid) => StartBefore(s, e, pid);
    case ByInst(id) => if id in s.sh.insts { StepGrows(s, e); } else { NewInst(s, e, id); }
  }

  predicate Configures(e: Event) {
    e.Register? || e.Registered? || e.DeregisterCall? || e.UploadCommit?
  }

  lemma FunctionsKept(s: Sys, e: Event)
    requires !Configures(e)
    ensures Step(s, e).sh.functions == s.sh.functions
  {
  }

  lemma CodeCounterKept(s: Sys, e: Event)
    requires !Configures(e)
    ensures Step(s, e).nextCode == s.nextCode
  {
  }

  lemma FunctionsChanged(s: Sys, e: Event)
    requires Configures(e)
    ensures s.nextCode <= Step(s, e).nextCode
    ensures forall f | f in Step(s, e).sh.functions ::
              || (f in s.sh.functions && Step(s, e).sh.functions[f] == s.sh.functions[f])
              || Step(s, e).sh.functions[f].code == s.nextCode < Step(s, e).nextCode
  {
  }

  lemma CountersGrow(s: Sys, e: Event)
    ensures s.sh.nextPort <= Step(s, e).sh.nextPort && s.nextCode <= Step(s, e).nextCode
    ensures forall f | f in Step(s, e).sh.functions ::
              || (f in s.sh.functions && Step(s, e).sh.functions[f] == s.sh.functions[f])
              || Step(s, e).sh.functions[f].code == s.nextCode < Step(s, e).nextCode
  {
    StepGrows(s, e);
    if Configures(e) { FunctionsChanged(s, e); } else { FunctionsKept(s, e); CodeCounterKept(s, e); }
  }

  lemma StepPortsUnique(s: Sys, e: Event)
    requires PortsUnique(s)
    ensures PortsUnique(Step(s, e))
  {
    var t := Step(s, e);
    CountersGrow(s, e);
    forall u, port: nat, code: nat | Uses(t, u, port, code) ensures port < t.sh.nextPort {
      PortBefore(s, e, u, port, code);
    }
    forall u, v, port: nat, c: nat, d: nat | Uses(t, u, port, c) && Uses(t, v, port, d) ensures u == v {
      PortBefore(s, e, u, port, c);
      PortBefore(s, e, v, port, d);
    }
  }

  lemma StepCodesOld(s: Sys, e: Event)
    requires CodesOld(s)
    ensures CodesOld(Step(s, e))
  {
    var t := Step(s, e);
    CountersGrow(s, e);
    forall u, port: nat, code: nat | Uses(t, u, port, code) ensures code < t.nextCode {
      PortBefore(s, e, u, port, code);
    }
  }

  lemma StepInv(s: Sys, e: Event)
    requires Inv(s)
    ensures Inv(Step(s, e))
  {
    StepPools(s, e);
    StepExclusive(s, e);
    StepBusyHeld(s, e);
    StepRetired(s, e);
    StepLeasesOnce(s, e);
    StepPortsUnique(s, e);
    StepCodesOld(s, e);
  }

  lemma {:induction false} RunInv(s: Sys, es: seq<Event>)
    requires Inv(s)
    ensures Inv(Run(s, es))
    decreases es
  {
    if es != [] {
      StepInv(s, es[0]);
      RunInv(Step(s, es[0]), es[1..]);
    }
  }

  // ----- the results -----

  /** In every reachable state no two holders share an instance, and every busy pooled instance has a holder. */
  lemma NoSharedInstance(functions: map<string, Config>, port: nat, nextCode: nat, es: seq<Event>)
    requires forall f :: f in functions ==> functions[f].code < nextCode
    ensures var s := Run(Init(functions, port, nextCode), es);
            && (forall h1, h2, id :: Holds(s, h1, id) && Holds(s, h2, id) ==> h1 == h2)
            && (forall h, id :: Holds(s, h, id) ==> id in s.sh.insts && s.sh.insts[id].state == Busy)
            && (forall id :: Pooled(s.sh, id) && s.sh.insts[id].state != InstState.Idle ==> exists h :: Holds(s, h, id))
  {
    InitInv(functions, port, nextCode);
    RunInv(Init(functions, port, nextCode), es);
  }

  lemma InitInv(functions: map<string, Config>, port: nat, nextCode: nat)
    requires forall f :: f in functions ==> functions[f].code < nextCode
    ensures Inv(Init(functions, port, nextCode))
  {
  }

  /** The holders of instances that are in the pool of `func`. */
  function HoldersIn(s: Sys, func: string): set<Holder> {
    (set pid | pid in s.procs && s.procs[pid].Holding? && s.procs[pid].inst in PoolOf(s.sh, func) :: ByProc(pid))
    + (set l | l in s.sh.leases && s.sh.leases[l].inst in PoolOf(s.sh, func) :: ByLease(l))
  }

  /** Stats reports as busy exactly as many instances as have a holder. */
  lemma BusyCountsHolders(s: Sys, func: string)
    requires Inv(s)
    ensures Count(s.sh.insts, PoolOf(s.sh, func), Busy) == |HoldersIn(s, func)|
    ensures Count(s.sh.insts, PoolOf(s.sh, func), Starting) == 0
  {
    var ids := PoolOf(s.sh, func);
    forall id | id in ids && s.sh.insts[id].state != InstState.Idle ensures s.sh.insts[id].state == Busy {
      assert Pooled(s.sh, id);
    }
    NoneCounted(s.sh.insts, ids, Starting);
    CountHolders(s, func, ids);
    assert HoldersIn(s, func) == HoldersAmong(s, func, ids);
  }

  function HoldersAmong(s: Sys, func: string, ids: seq<string>): set<Holder> {
    set h | h in HoldersIn(s, func) && Instance(s, h) in ids
  }

  function Instance(s: Sys, h: Holder): string {
    match h
    case ByProc(pid) => if pid in s.procs && s.procs[pid].Holding? then s.procs[pid].inst else ""
    case ByLease(l) => if l in s.sh.leases then s.sh.leases[l].inst else ""
  }

  lemma {:induction false} NoneCounted(insts: map<string, Inst>, ids: seq<string>, state: InstState)
    requires forall id :: id in ids ==> id in insts && insts[id].state != state
    ensures Count(insts, ids, state) == 0
  {
    if ids != [] { NoneCounted(insts, ids[1..], state); }
  }

  lemma {:induction false} CountHolders(s: Sys, func: string, ids: seq<string>)
    requires WellFormed(s.sh) && Exclusive(s) && BusyHeld(s)
    requires NoDup(ids) && forall id :: id in ids ==> id in PoolOf(s.sh, func)
    ensures Count(s.sh.insts, ids, Busy) == |HoldersAmong(s, func, ids)|
  {
    if ids == [] {
      assert HoldersAmong(s, func, ids) == {};
    } else {
      hide HoldersAmong, Exclusive, BusyHeld, WellFormed;
      CountHolders(s, func, ids[1..]);
      assert ids[0] in ids;
      KnownHere(s, func, ids[0]);
      if s.sh.insts[ids[0]].state != InstState.Idle {
        var h := HolderOf(s, func, ids[0]);
        OneMoreHolder(s, func, ids, h);
        assert |HoldersAmong(s, func, ids[1..]) + {h}| == |HoldersAmong(s, func, ids[1..])| + 1;
      } else {
        NoMoreHolder(s, func, ids);
      }
    }
  }

  lemma KnownHere(s: Sys, func: string, id: string)
    requires WellFormed(s.sh) && id in PoolOf(s.sh, func)
    ensures id in s.sh.insts && Pooled(s.sh, id)
  {
  }

  /** The holder of a busy pooled instance, which makes it busy. */
  lemma HolderOf(s: Sys, func: string, id: string) returns (h: Holder)
    requires WellFormed(s.sh) && Exclusive(s) && BusyHeld(s) && id in PoolOf(s.sh, func)
    requires id in s.sh.insts && s.sh.insts[id].state != InstState.Idle
    ensures Holds(s, h, id) && s.sh.insts[id].state == Busy
  {
    h :| Holds(s, h, id);
  }

  lemma OneMoreHolder(s: Sys, func: string, ids: seq<string>, h: Holder)
    requires Exclusive(s) && NoDup(ids) && ids != [] && ids[0] in PoolOf(s.sh, func) && Holds(s, h, ids[0])
    ensures HoldersAmong(s, func, ids) == HoldersAmong(s, func, ids[1..]) + {h}
    ensures h !in HoldersAmong(s, func, ids[1..])
  {
    assert h in HoldersIn(s, func) && Instance(s, h) == ids[0];
    forall k | k in HoldersAmong(s, func, ids) ensures k == h || k in HoldersAmong(s, func, ids[1..]) {
      assert Holds(s, k, Instance(s, k));
    }
  }

  lemma NoMoreHolder(s: Sys, func: string, ids: seq<string>)
    requires Exclusive(s) && ids != [] && IsIdle(s.sh.insts, ids[0])
    ensures HoldersAmong(s, func, ids) == HoldersAmong(s, func, ids[1..])
  {
    forall h | h in HoldersAmong(s, func, ids) ensures h in HoldersAmong(s, func, ids[1..]) {
      assert Holds(s, h, Instance(s, h));
    }
  }

  // ----- retirement -----

  /** The instances that Acquire returns in this step. */
  function Acquired(s: Sys, e: Event): set<string> {
    var t := Step(s, e);
    if (e.HttpAcquire? || e.LeaseAcquire? || e.Started?) && t != s && e.pid in t.procs && t.procs[e.pid].Holding?
    then {t.procs[e.pid].inst} else {}
  }

  lemma {:induction false} LeavingIsFinal(s: Sys, es: seq<Event>, id: string)
    requires WellFormed(s.sh) && id in s.sh.insts && !Pooled(s.sh, id)
    ensures id in Run(s, es).sh.insts && !Pooled(Run(s, es).sh, id)
    decreases es
  {
    if es != [] {
      StepGrows(s, es[0]);
      StepPools(s, es[0]);
      LeavingIsFinal(Step(s, es[0]), es[1..], id);
    }
  }

  lemma AcquiredWas(s: Sys, e: Event, id: string)
    requires WellFormed(s.sh) && id in Acquired(s, e)
    ensures (Pooled(s.sh, id) && IsIdle(s.sh.insts, id)) || id !in s.sh.insts
  {
  }

  /** An instance handed to stop is in no pool of any later state, and no later acquire returns it. */
  lemma RetirementIsFinal(s: Sys, es: seq<Event>, e: Event, id: string)
    requires Inv(s) && id in s.stopped
    ensures !Pooled(Run(s, es).sh, id)
    ensures id !in Acquired(Run(s, es), e)
  {
    LeavingIsFinal(s, es, id);
    RunInv(s, es);
    if id in Acquired(Run(s, es), e) { AcquiredWas(Run(s, es), e, id); }
  }

  /** The idle reaper and RemoveIdle retire only instances that nobody holds. */
  lemma IdleRetirementIsUnheld(s: Sys, e: Event, h: Holder, id: string)
    requires Inv(s) && (e.IdleReap? || e.RemoveIdle?)
    requires Pooled(s.sh, id) && !Pooled(Step(s, e).sh, id)
    ensures !Holds(s, h, id) && id in Step(s, e).stopped
  {
  }

  lemma LeavingStep(s: Sys, e: Event, id: string)
    requires WellFormed(s.sh) && Pooled(s.sh, id) && !Pooled(Step(s, e).sh, id)
    ensures id in Step(s, e).stopped || (e.UploadCommit? && Detached(Step(s, e), e.pid, id))
  {
  }

  /** Some upload whose metadata could not be saved had taken the instance out of the pool. */
  predicate LostBySave(s: Sys, es: seq<Event>, id: string)
    decreases es
  {
    && es != []
    && ((es[0].UploadSaved? && !es[0].saved && Detached(s, es[0].pid, id)) || LostBySave(Step(s, es[0]), es[1..], id))
  }

  lemma KeptOrStopped(s: Sys, e: Event, pid: nat, id: string)
    requires id in s.stopped || Detached(s, pid, id)
    ensures id in Step(s, e).stopped || Detached(Step(s, e), pid, id)
        || (e == UploadSaved(pid, false) && Detached(s, pid, id))
  {
  }

  /** Every instance that leaves a pool is stopped, is about to be by a running upload, or was lost by a failed save. */
  lemma {:induction false} LeaversAreStopped(s: Sys, es: seq<Event>, id: string)
    requires WellFormed(s.sh) && (Pooled(s.sh, id) || id in s.stopped || exists pid :: Detached(s, pid, id))
    ensures var t := Run(s, es);
            Pooled(t.sh, id) || id in t.stopped || (exists pid :: Detached(t, pid, id)) || LostBySave(s, es, id)
    decreases es
  {
    if es != [] {
      var e := es[0];
      StepPools(s, e);
      if Pooled(s.sh, id) && !Pooled(Step(s, e).sh, id) {
        LeavingStep(s, e, id);
      } else if !Pooled(s.sh, id) {
        var pid :| id in s.stopped || Detached(s, pid, id);
        KeptOrStopped(s, e, pid, id);
      }
      if !(e.UploadSaved? && !e.saved && Detached(s, e.pid, id)) {
        LeaversAreStopped(Step(s, e), es[1..], id);
      }
    }
  }

  // ----- leases -----

  /** Over any run every lease that was issued is either still recorded or was closed exactly once. */
  lemma LeasesEndOnce(functions: map<string, Config>, port: nat, nextCode: nat, es: seq<Event>, lease: string)
    requires forall f :: f in functions ==> functions[f].code < nextCode
    ensures var s := Run(Init(functions, port, nextCode), es);
            && s.closings[lease] <= 1
            && (s.closings[lease] == 1 <==> lease in s.issued && lease !in s.sh.leases)
            && (lease in s.sh.leases ==> lease in s.issued)
  {
    InitInv(functions, port, nextCode);
    RunInv(Init(functions, port, nextCode), es);
  }

  lemma IssuedStays(s: Sys, e: Event)
    ensures s.issued <= Step(s, e).issued && s.closings <= Step(s, e).closings
  {
  }

  lemma {:induction false} ClosedStays(s: Sys, es: seq<Event>, lease: string)
    requires Inv(s) && s.closings[lease] > 0
    ensures Inv(Run(s, es)) && Run(s, es).closings[lease] > 0
    decreases es
  {
    if es != [] {
      IssuedStays(s, es[0]);
      StepInv(s, es[0]);
      ClosedStays(Step(s, es[0]), es[1..], lease);
    }
  }

  /** However much later a closed lease is released again, the scheduler does not change. */
  lemma LateReleaseIsRefused(s: Sys, es: seq<Event>, lease: string, status: LeaseStatus, now: int)
    requires Inv(s) && s.closings[lease] > 0
    ensures var t := Run(s, es); lease !in t.sh.leases && Step(t, LeaseRelease(lease, status, now)) == t
  {
    ClosedStays(s, es, lease);
  }

  /** After reaping, exactly the leases past their deadline are gone, their instances out of the pools and stopped. */
  lemma ReapIsExact(s: Sys, now: int)
    requires Inv(s)
    ensures var t := Step(s, LeaseReap(now));
            && (forall l :: l in t.sh.leases <==> l in s.sh.leases && now <= s.sh.leases[l].deadline)
            && (forall l :: l in t.sh.leases ==> t.sh.leases[l] == s.sh.leases[l])
            && (forall l :: l in s.sh.leases && l !in t.sh.leases ==>
                  s.sh.leases[l].inst in t.stopped && !Pooled(t.sh, s.sh.leases[l].inst))
            && (forall id :: Pooled(s.sh, id) && !Pooled(t.sh, id) ==>
                  exists l :: l in s.sh.leases && l !in t.sh.leases && s.sh.leases[l].inst == id)
  {
  }

  // ----- code freshness -----

  predicate StartingFor(s: Sys, func: string) {
    exists p :: p in s.procs && Starts(s.procs[p]) && s.procs[p].func == func
  }

  /** An instance in the pool of `func`, or a running start for it, has this code. */
  predicate Supplies(s: Sys, u: PortUser, func: string, code: nat) {
    match u
    case ByStart(pid) => pid in s.procs && Starts(s.procs[pid]) && s.procs[pid].func == func
        && s.procs[pid].code == code
    case ByInst(id) => id in PoolOf(s.sh, func) && id in s.sh.insts && s.sh.insts[id].code == code
  }

  /** Whatever an acquire of `func` can return, now or after a running start, is of the current configuration. */
  ghost predicate Fresh(s: Sys, func: string) {
    forall u, code: nat :: Supplies(s, u, func, code) ==> func in s.sh.functions && s.sh.functions[func].code == code
  }

  /** An upload or deregistration that overlaps a start of `func`, or an undone registration that left instances. */
  predicate Disturbs(s: Sys, e: Event, func: string) {
    || (e == DeregisterCall(func) && StartingFor(s, func))
    || (e.UploadCommit? && e.pid in s.procs && s.procs[e.pid].Uploading? && s.procs[e.pid].func == func
         && StartingFor(s, func))
    || (e.Registered? && !e.saved && e.pid in s.procs && s.procs[e.pid] == Registering(func)
        && (StartingFor(s, func) || PoolOf(s.sh, func) != []))
  }

  predicate Undisturbed(s: Sys, es: seq<Event>, func: string)
    decreases es
  {
    es == [] || (!Disturbs(s, es[0], func) && Undisturbed(Step(s, es[0]), es[1..], func))
  }

  lemma SupplyBefore(s: Sys, e: Event, u: PortUser, func: string, code: nat)
    requires WellFormed(s.sh) && Supplies(Step(s, e), u, func, code)
    ensures Supplies(s, u, func, code)
         || (e.Started? && u == ByInst(e.id) && Supplies(s, ByStart(e.pid), func, code))
         || (func in s.sh.functions && code == s.sh.functions[func].code && Step(s, e).sh.functions == s.sh.functions)
  {
    match u
    case ByStart(pid) => StartBefore(s, e, pid);
    case ByInst(id) => InstBefore(s, e, id, func);
  }

  lemma InstBefore(s: Sys, e: Event, id: string, func: string)
    requires WellFormed(s.sh) && id in PoolOf(Step(s, e).sh, func) && id in Step(s, e).sh.insts
    ensures (id in PoolOf(s.sh, func) && id in s.sh.insts && Step(s, e).sh.insts[id].code == s.sh.insts[id].code)
         || (e.Started? && id == e.id && Supplies(s, ByStart(e.pid), func, Step(s, e).sh.insts[id].code))
  {
    StepPools(s, e);
    assert Pooled(Step(s, e).sh, id);
    CodeKept(s, e, id);
  }

  lemma CodeKept(s: Sys, e: Event, id: string)
    requires id in Step(s, e).sh.insts
    ensures (id in s.sh.insts && SameOrigin(s.sh.insts[id], Step(s, e).sh.insts[id]))
         || (e.Started? && id == e.id && e.pid in s.procs && Starts(s.procs[e.pid])
             && s.procs[e.pid].func == Step(s, e).sh.insts[id].func
             && s.procs[e.pid].code == Step(s, e).sh.insts[id].code)
  {
    if id in s.sh.insts { StepGrows(s, e); } else { NewInst(s, e, id); }
  }

  /** How the configuration of a function can change in a step, and what its pool then is. */
  lemma ConfigBefore(s: Sys, e: Event, func: string)
    requires Configures(e)
    ensures var t := Step(s, e);
            || ((func in t.sh.functions <==> func in s.sh.functions)
                && (func in s.sh.functions ==> t.sh.functions[func] == s.sh.functions[func]))
            || (e.Register? && func !in s.sh.functions)
            || ((e == DeregisterCall(func)
                 || (e.UploadCommit? && e.pid in s.procs && s.procs[e.pid].Uploading? && s.procs[e.pid].func == func))
                && PoolOf(t.sh, func) == [])
            || (e.Registered? && !e.saved && e.pid in s.procs && s.procs[e.pid] == Registering(func)
                 && t.sh.pool == s.sh.pool)
  {
  }

  lemma FreshStep(s: Sys, e: Event, func: string)
    requires WellFormed(s.sh) && Fresh(s, func) && !Disturbs(s, e, func)
    ensures Fresh(Step(s, e), func)
  {
    var t := Step(s, e);
    if Configures(e) { ConfigBefore(s, e, func); } else { FunctionsKept(s, e); }
    forall u, code: nat | Supplies(t, u, func, code)
      ensures func in t.sh.functions && t.sh.functions[func].code == code
    {
      SupplyBefore(s, e, u, func, code);
    }
  }

  lemma {:induction false} FreshRun(s: Sys, es: seq<Event>, func: string)
    requires Inv(s) && Fresh(s, func) && Undisturbed(s, es, func)
    ensures Fresh(Run(s, es), func) && Inv(Run(s, es))
    decreases es
  {
    if es != [] {
      StepInv(s, es[0]);
      FreshStep(s, es[0], func);
      FreshRun(Step(s, es[0]), es[1..], func);
    }
  }

  /** Committing an upload makes the function fresh if and only if no start of it is running. */
  lemma UploadFreshens(s: Sys, pid: nat)
    requires Inv(s) && pid in s.procs && s.procs[pid].Uploading?
    ensures Fresh(Step(s, UploadCommit(pid)), s.procs[pid].func) <==> !StartingFor(s, s.procs[pid].func)
  {
    var f := s.procs[pid].func;
    var t := Step(s, UploadCommit(pid));
    if StartingFor(s, f) {
      var p :| p in s.procs && Starts(s.procs[p]) && s.procs[p].func == f;
      assert Supplies(t, ByStart(p), f, s.procs[p].code);
      assert Uses(s, ByStart(p), s.procs[p].port, s.procs[p].code);
    }
  }

  /** What an acquire returns was supplied by the pool or by the start that it waited for. */
  lemma AcquiredWasSupplied(s: Sys, e: Event, id: string)
    requires WellFormed(s.sh) && id in Acquired(s, e)
    ensures Step(s, e).procs[e.pid].Holding? && id in Step(s, e).sh.insts && Step(s, e).sh.functions == s.sh.functions
    ensures var func, code := Step(s, e).procs[e.pid].func, Step(s, e).sh.insts[id].code;
            Supplies(s, ByInst(id), func, code) || Supplies(s, ByStart(e.pid), func, code)
  {
  }

  lemma FreshAcquire(s: Sys, e: Event, id: string)
    requires Inv(s) && id in Acquired(s, e)
    requires Fresh(s, Step(s, e).procs[e.pid].func)
    ensures var t := Step(s, e);
            var f := t.procs[e.pid].func;
            f in t.sh.functions && id in t.sh.insts && t.sh.insts[id].code == t.sh.functions[f].code
  {
    AcquiredWasSupplied(s, e, id);
  }

  /** After an upload that overlaps no start, every acquire in every undisturbed continuation returns current code. */
  lemma CodeIsFresh(s: Sys, pid: nat, es: seq<Event>, e: Event, id: string)
    requires Inv(s) && pid in s.procs && s.procs[pid].Uploading? && !StartingFor(s, s.procs[pid].func)
    requires Undisturbed(Step(s, UploadCommit(pid)), es, s.procs[pid].func)
    requires var r := Run(Step(s, UploadCommit(pid)), es);
             id in Acquired(r, e) && Step(r, e).procs[e.pid].func == s.procs[pid].func
    ensures var t := Step(Run(Step(s, UploadCommit(pid)), es), e);
            var f := s.procs[pid].func;
            f in t.sh.functions && id in t.sh.insts && t.sh.insts[id].code == t.sh.functions[f].code
  {
    var c := Step(s, UploadCommit(pid));
    StepInv(s, UploadCommit(pid));
    UploadFreshens(s, pid);
    FreshRun(c, es, s.procs[pid].func);
    FreshAcquire(Run(c, es), e, id);
  }

  /** When a cold start does overlap the upload, the acquire that waits for it returns older code. */
  lemma OverlappingColdStartIsStale(s: Sys, pid: nat, p: nat, id: string, now: int)
    requires Inv(s) && pid in s.procs && s.procs[pid].Uploading?
    requires p in s.procs && s.procs[p].ColdStart? && s.procs[p].func == s.procs[pid].func && id !in s.sh.insts
    ensures var c := Step(s, UploadCommit(pid));
            var t := Step(c, Started(p, id, now));
            id in Acquired(c, Started(p, id, now)) && t.sh.insts[id].code < t.sh.functions[s.procs[pid].func].code
  {
    assert Uses(s, ByStart(p), s.procs[p].port, s.procs[p].code);
  }

  /** A function whose only pooled instance is idle and of older code serves that instance next. */
  lemma StaleIdleIsServed(s: Sys, q: nat, func: string, id: string, now: int)
    requires q !in s.procs && func in s.sh.functions && PoolOf(s.sh, func) == [id]
    requires IsIdle(s.sh.insts, id) && s.sh.insts[id].code < s.sh.functions[func].code
    ensures var t := Step(s, HttpAcquire(q, func, now));
            id in Acquired(s, HttpAcquire(q, func, now)) && t.sh.insts[id].code < t.sh.functions[func].code
  {
  }

  /** When a pre-warming start overlaps the upload, the next acquire returns older code. */
  lemma OverlappingPrewarmIsStale(s: Sys, pid: nat, p: nat, id: string, q: nat, now: int)
    requires Inv(s) && pid in s.procs && s.procs[pid].Uploading?
    requires p in s.procs && s.procs[p].Prewarming? && s.procs[p].func == s.procs[pid].func
    requires id !in s.sh.insts && q !in s.procs
    ensures var r := Step(Step(s, UploadCommit(pid)), Started(p, id, now));
            var t := Step(r, HttpAcquire(q, s.procs[pid].func, now));
            && id in Acquired(r, HttpAcquire(q, s.procs[pid].func, now))
            && t.sh.insts[id].code < t.sh.functions[s.procs[pid].func].code
  {
    assert Uses(s, ByStart(p), s.procs[p].port, s.procs[p].code);
    var r := Step(Step(s, UploadCommit(pid)), Started(p, id, now));
    assert PoolOf(r.sh, s.procs[p].func) == [id];
    StaleIdleIsServed(r, q, s.procs[pid].func, id, now);
  }
}
