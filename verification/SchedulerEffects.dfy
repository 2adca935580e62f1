/** What one critical section does, in the fields of the state alone: which instance Acquire hands out, how a lease ends
    by its status, which instances are retired and when. */
module SchedulerEffects {
  import opened InstancePool
  import opened SchedulerProtocol

  /** Entry i is the first idle one of the slice. */
  predicate FirstIdleAt(s: Sys, ids: seq<string>, i: nat) {
    && i < |ids| && ids[i] in s.sh.insts && s.sh.insts[ids[i]].state == InstState.Idle
    && forall k | 0 <= k < i :: ids[k] in s.sh.insts ==> s.sh.insts[ids[k]].state != InstState.Idle
  }

  predicate NoneIdle(s: Sys, ids: seq<string>) {
    forall k | 0 <= k < |ids| :: ids[k] in s.sh.insts ==> s.sh.insts[ids[k]].state != InstState.Idle
  }

  /** The slice of a function; a missing one is empty. */
  predicate IsSlice(s: Sys, func: string, ids: seq<string>) {
    if func in s.sh.pool then ids == s.sh.pool[func] else ids == []
  }

  /** What the first section of Acquire leads to, for a caller with this goal. */
  predicate Takes(s: Sys, t: Sys, pid: nat, goal: Goal, func: string, now: int, ids: seq<string>, i: nat) {
    if func !in s.sh.functions then t == s.(procs := s.procs - {pid})
    else if FirstIdleAt(s, ids, i) then
      var id := ids[i];
      t == s.(sh := s.sh.(insts := s.sh.insts[id := s.sh.insts[id].(state := Busy, lastUsed := now)]),
              procs := s.procs[pid := Holding(goal, func, id)])
    else
      NoneIdle(s, ids)
      && t == s.(sh := s.sh.(nextPort := s.sh.nextPort + 1),
                 procs := s.procs[pid := ColdStart(goal, func, s.sh.nextPort, s.sh.functions[func].code)])
  }

  /** Acquire hands out the first idle instance of the function, busy from now on; only when there is none does it start
      one, from the function's current code and on a port of its own. */
  lemma AcquireEffect(s: Sys, pid: nat, func: string, now: int) returns (ids: seq<string>, i: nat)
    requires pid !in s.procs
    ensures IsSlice(s, func, ids) && Takes(s, Step(s, HttpAcquire(pid, func, now)), pid, HttpCall, func, now, ids, i)
  {
    ids := PoolOf(s.sh, func);
    i := FirstIdle(s.sh.insts, ids);
    assert s.procs - {pid} == s.procs;
  }

  lemma LeaseAcquireEffect(s: Sys, pid: nat, now: int) returns (ids: seq<string>, i: nat)
    requires pid in s.procs && s.procs[pid].Checked?
    ensures var p := s.procs[pid];
            IsSlice(s, p.func, ids)
            && Takes(s, Step(s, LeaseAcquire(pid, now)), pid, LeaseCall(p.timeout), p.func, now, ids, i)
  {
    ids := PoolOf(s.sh, s.procs[pid].func);
    i := FirstIdle(s.sh.insts, ids);
  }

  /** The timeout of a lease: the requested one up to the limit, the function's own when none is requested, or 30
      seconds; the limit is the function's timeout, or the environment's, or 300 seconds. */
  predicate IsLeaseTimeout(requested: int, functionTimeout: int, envMax: int, timeout: int) {
    var limit := if functionTimeout > 0 then functionTimeout else if envMax > 0 then envMax else 300;
    && timeout <= limit
    && (requested >= limit ==> timeout == limit)
    && (0 < requested < limit ==> timeout == requested)
    && (requested <= 0 < functionTimeout ==> timeout == functionTimeout)
    && (requested <= 0 && functionTimeout <= 0 ==> timeout == if limit < 30 then limit else 30)
  }

  /** AcquireInstance goes on exactly for an enabled mq trigger of a registered function, with that timeout. */
  lemma LeaseCheckEffect(s: Sys, e: Event)
    requires e.LeaseCheck? && e.pid !in s.procs
    ensures var t := Step(s, e);
            if e.func in s.sh.functions && e.source == "mq" && e.trigger != "" && e.mqId != ""
               && exists i :: 0 <= i < |s.sh.functions[e.func].triggers|
                    && s.sh.functions[e.func].triggers[i] == TriggerConfig(e.trigger, "mq", true, e.mqId)
            then exists timeout :: IsLeaseTimeout(e.requested, s.sh.functions[e.func].timeout, e.envMax, timeout)
                                   && t == s.(procs := s.procs[e.pid := Checked(e.func, timeout)])
            else t == s
  {
    if e.func in s.sh.functions {
      var timeout := ClampLeaseTimeout(e.requested, s.sh.functions[e.func].timeout, e.envMax);
      assert IsLeaseTimeout(e.requested, s.sh.functions[e.func].timeout, e.envMax, timeout);
    }
  }

  /** A started instance goes to the end of the slice it was started for: busy with the caller that waited for it, or
      idle when it was pre-warmed. */
  lemma StartedEffect(s: Sys, pid: nat, id: string, now: int, ids: seq<string>)
    requires pid in s.procs && Starts(s.procs[pid]) && id !in s.sh.insts && IsSlice(s, s.procs[pid].func, ids)
    ensures var p, t := s.procs[pid], Step(s, Started(pid, id, now));
            var state := if p.ColdStart? then Busy else InstState.Idle;
            && t == s.(sh := s.sh.(pool := s.sh.pool[p.func := ids + [id]],
                                   insts := s.sh.insts[id := Inst(state, now, p.func, p.port, p.code)]),
                       procs := if p.ColdStart? then s.procs[pid := Holding(p.goal, p.func, id)] else s.procs - {pid})
  {
  }

  lemma StartFailedEffect(s: Sys, pid: nat)
    requires pid in s.procs && Starts(s.procs[pid])
    ensures Step(s, StartFailed(pid)) == s.(procs := s.procs - {pid})
  {
  }

  /** The end of an HTTP call leaves its instance idle from now on. */
  lemma HttpReleaseEffect(s: Sys, pid: nat, func: string, id: string, now: int)
    requires pid in s.procs && s.procs[pid] == Holding(HttpCall, func, id) && id in s.sh.insts
    ensures Step(s, HttpRelease(pid, now))
         == s.(sh := s.sh.(insts := s.sh.insts[id := s.sh.insts[id].(state := InstState.Idle, lastUsed := now)]),
               procs := s.procs - {pid})
  {
  }

  /** A lease is for the instance that was acquired, and ends five seconds after its timeout. */
  lemma LeaseRecordEffect(s: Sys, pid: nat, timeout: int, func: string, id: string, lease: string, now: int)
    requires pid in s.procs && s.procs[pid] == Holding(LeaseCall(timeout), func, id)
    requires id in s.sh.insts && lease !in s.issued
    ensures Step(s, LeaseRecord(pid, lease, now))
         == s.(sh := s.sh.(leases := s.sh.leases[lease := Lease(id, now + (timeout + 5) * 1_000_000_000)]),
               procs := s.procs - {pid}, issued := s.issued + {lease})
  {
  }

  /** How the instance of a recorded lease ends by its status: after a timeout, or when it was abandoned, it is stopped
      and in no pool; after success or an error it stays pooled if it was, idle from now on. */
  lemma ReleaseByStatus(s: Sys, lease: string, status: LeaseStatus, now: int)
    requires Inv(s) && lease in s.sh.leases && !status.Unknown?
    ensures var id, t := s.sh.leases[lease].inst, Step(s, LeaseRelease(lease, status, now));
            && t.sh.leases == s.sh.leases - {lease} && t.procs == s.procs && t.sh.functions == s.sh.functions
            && t.closings == s.closings + multiset{lease}
            && if status == Timeout || status == Abandoned then
                 && !Pooled(t.sh, id) && t.stopped == s.stopped + {id} && t.sh.insts == s.sh.insts
                 && (forall x :: x != id ==> (Pooled(t.sh, x) <==> Pooled(s.sh, x)))
               else
                 && t.sh.pool == s.sh.pool && t.stopped == s.stopped
                 && t.sh.insts == s.sh.insts[id := s.sh.insts[id].(state := InstState.Idle, lastUsed := now)]
  {
    hide Inv;
    InvWellFormed(s);
    if status == Timeout || status == Abandoned {
      ReleaseRetires(s, lease, status, now);
    } else {
      ReleaseReturns(s, lease, status, now);
    }
  }

  lemma InvWellFormed(s: Sys)
    requires Inv(s)
    ensures WellFormed(s.sh)
  {
  }

  lemma ReleaseRetires(s: Sys, lease: string, status: LeaseStatus, now: int)
    requires WellFormed(s.sh) && lease in s.sh.leases && (status == Timeout || status == Abandoned)
    ensures var id, t := s.sh.leases[lease].inst, Step(s, LeaseRelease(lease, status, now));
            && t.sh.leases == s.sh.leases - {lease} && t.procs == s.procs && t.sh.functions == s.sh.functions
            && t.closings == s.closings + multiset{lease}
            && !Pooled(t.sh, id) && t.stopped == s.stopped + {id} && t.sh.insts == s.sh.insts
            && (forall x :: x != id ==> (Pooled(t.sh, x) <==> Pooled(s.sh, x)))
  {
    hide Grows;
  }

  lemma ReleaseReturns(s: Sys, lease: string, status: LeaseStatus, now: int)
    requires WellFormed(s.sh) && lease in s.sh.leases && (status == Success || status == Error)
    ensures var id, t := s.sh.leases[lease].inst, Step(s, LeaseRelease(lease, status, now));
            && t.sh.leases == s.sh.leases - {lease} && t.procs == s.procs && t.sh.functions == s.sh.functions
            && t.closings == s.closings + multiset{lease}
            && t.sh.pool == s.sh.pool && t.stopped == s.stopped
            && t.sh.insts == s.sh.insts[id := s.sh.insts[id].(state := InstState.Idle, lastUsed := now)]
  {
    hide Grows;
  }

  /** So no later run acquires an instance whose lease timed out or was abandoned. */
  lemma AbandonedIsNeverReused(s: Sys, lease: string, status: LeaseStatus, now: int, es: seq<Event>, e: Event)
    requires Inv(s) && lease in s.sh.leases && (status == Timeout || status == Abandoned)
    ensures var id, t := s.sh.leases[lease].inst, Run(Step(s, LeaseRelease(lease, status, now)), es);
            !Pooled(t.sh, id) && id !in Acquired(t, e)
  {
    hide Step, Run, Inv, Pooled, Acquired;
    ReleaseByStatus(s, lease, status, now);
    StepInv(s, LeaseRelease(lease, status, now));
    RetirementIsFinal(Step(s, LeaseRelease(lease, status, now)), es, e, s.sh.leases[lease].inst);
  }

  /** An unknown status or lease is refused. */
  lemma ReleaseRefused(s: Sys, lease: string, status: LeaseStatus, now: int)
    requires status.Unknown? || lease !in s.sh.leases
    ensures Step(s, LeaseRelease(lease, status, now)) == s
  {
  }

  /** The lease reaper ends exactly the leases past their deadline, stops their instances, and takes those out of the
      pools. */
  lemma LeaseReapEffect(s: Sys, now: int)
    requires Inv(s)
    ensures var t := Step(s, LeaseReap(now));
            var due := set l | l in s.sh.leases && now > s.sh.leases[l].deadline;
            && t == s.(sh := s.sh.(pool := t.sh.pool, leases := s.sh.leases - due), stopped := t.stopped,
                       closings := s.closings + multiset(due))
            && t.stopped == s.stopped + (set l | l in due :: s.sh.leases[l].inst)
            && (forall id :: Pooled(t.sh, id) <==>
                  Pooled(s.sh, id) && forall l :: l in due ==> s.sh.leases[l].inst != id)
  {
    var due := set l | l in s.sh.leases && now > s.sh.leases[l].deadline;
    assert due == Expired(s.sh, now);
    InvWellFormed(s);
    hide Inv, Grows;
  }

  /** The idle reaper takes exactly the pooled instances that have been idle for more than five minutes. */
  lemma IdleReapEffect(s: Sys, now: int)
    requires Inv(s)
    ensures var t := Step(s, IdleReap(now));
            && t == s.(sh := s.sh.(pool := t.sh.pool), stopped := t.stopped)
            && (forall id :: id in t.stopped <==> id in s.stopped || (Pooled(s.sh, id) && !Pooled(t.sh, id)))
            && (forall id :: Pooled(s.sh, id) ==>
                  (!Pooled(t.sh, id) <==> s.sh.insts[id].state == InstState.Idle
                                          && now - s.sh.insts[id].lastUsed > 300_000_000_000))
            && (forall id :: Pooled(t.sh, id) ==> Pooled(s.sh, id))
  {
  }

  /** Entry i is idle, the longest of the slice, and the first of those. */
  predicate LongestIdleAt(s: Sys, ids: seq<string>, i: nat) {
    && i < |ids| && ids[i] in s.sh.insts && s.sh.insts[ids[i]].state == InstState.Idle
    && forall k | 0 <= k < |ids| && ids[k] in s.sh.insts && s.sh.insts[ids[k]].state == InstState.Idle ::
         s.sh.insts[ids[i]].lastUsed <= s.sh.insts[ids[k]].lastUsed
         && (s.sh.insts[ids[i]].lastUsed == s.sh.insts[ids[k]].lastUsed ==> i <= k)
  }

  /** RemoveIdle takes the longest idle instance of the function if it has been idle for two minutes, and no other. */
  lemma RemoveIdleEffect(s: Sys, func: string, now: int) returns (ids: seq<string>, i: nat)
    ensures var t := Step(s, RemoveIdle(func, now));
            && IsSlice(s, func, ids)
            && if LongestIdleAt(s, ids, i) && now - s.sh.insts[ids[i]].lastUsed >= 120_000_000_000 then
                 t == s.(sh := s.sh.(pool := s.sh.pool[func := ids[..i] + ids[i + 1..]]),
                         stopped := s.stopped + {ids[i]})
               else t == s && (LongestIdleAt(s, ids, i) || NoneIdle(s, ids))
  {
    ids := PoolOf(s.sh, func);
    var oldest := OldestIdle(s.sh.insts, ids);
    i := if oldest == -1 then 0 else oldest;
    hide Grows;
  }

  /** Deregistering removes the function and stops everything in its slice. */
  lemma DeregisterEffect(s: Sys, func: string, ids: seq<string>)
    requires IsSlice(s, func, ids)
    ensures Step(s, DeregisterCall(func))
         == s.(sh := s.sh.(functions := s.sh.functions - {func}, pool := s.sh.pool - {func}),
               stopped := s.stopped + set id | id in ids)
  {
  }

  /** Registering stores the configuration under a new code tag, and only if the name is free; when the metadata cannot
      be saved it is removed again. */
  lemma RegisterEffect(s: Sys, pid: nat, func: string, cfg: Config, saved: bool)
    requires pid !in s.procs
    ensures var t := Step(s, Register(pid, func, cfg));
            if func in s.sh.functions then t == s
            else
              && t.sh == s.sh.(functions := s.sh.functions[func := cfg.(code := s.nextCode)])
              && t.nextCode == s.nextCode + 1
              && Step(t, Registered(pid, saved)).procs == s.procs
              && Step(t, Registered(pid, saved)).sh == if saved then t.sh else s.sh
  {
    if func !in s.sh.functions {
      assert s.procs[pid := Registering(func)] - {pid} == s.procs;
      assert s.sh.functions[func := cfg.(code := s.nextCode)] - {func} == s.sh.functions;
    }
  }

  /** An upload keeps the configuration of the function that it read at first, gives it a new code tag, empties the
      slice, and stops what was in it once the metadata is saved. */
  lemma UploadEffect(s: Sys, pid: nat, func: string, cfg: Config, ids: seq<string>, saved: bool)
    requires pid in s.procs && s.procs[pid] == Uploading(func, cfg) && IsSlice(s, func, ids)
    ensures var t := Step(s, UploadCommit(pid));
            var u := Step(t, UploadSaved(pid, saved));
            && t.sh == s.sh.(functions := s.sh.functions[func := cfg.(code := s.nextCode)],
                             pool := s.sh.pool[func := []])
            && t.nextCode == s.nextCode + 1 && t.stopped == s.stopped
            && u.sh == t.sh && u.procs == s.procs - {pid}
            && u.stopped == if saved then s.stopped + (set id | id in ids) else s.stopped
  {
  }

  lemma UploadBeginEffect(s: Sys, pid: nat, func: string)
    requires pid !in s.procs
    ensures Step(s, UploadBegin(pid, func))
         == if func in s.sh.functions then s.(procs := s.procs[pid := Uploading(func, s.sh.functions[func])]) else s
  {
  }

  /** A pre-warming start takes a port of its own and the function's current code. */
  lemma PrewarmEffect(s: Sys, pid: nat, func: string)
    requires pid !in s.procs
    ensures Step(s, Prewarm(pid, func))
         == if func !in s.sh.functions then s
            else s.(sh := s.sh.(nextPort := s.sh.nextPort + 1),
                    procs := s.procs[pid := Prewarming(func, s.sh.nextPort, s.sh.functions[func].code)])
  {
  }

  function InState(insts: map<string, Inst>, ids: seq<string>, state: InstState): set<string> {
    set id | id in ids && id in insts && insts[id].state == state
  }

  /** What Stats counts: the instances of the slice in this state. */
  lemma {:induction false} CountIs(insts: map<string, Inst>, ids: seq<string>, state: InstState)
    requires NoDup(ids)
    ensures Count(insts, ids, state) == |InState(insts, ids, state)|
  {
    if ids != [] {
      assert ids[0] !in ids[1..];
      OneMoreInState(insts, ids, state);
      CountIs(insts, ids[1..], state);
    }
  }

  lemma OneMoreInState(insts: map<string, Inst>, ids: seq<string>, state: InstState)
    requires ids != [] && ids[0] !in ids[1..]
    ensures |InState(insts, ids, state)| == |InState(insts, ids[1..], state)|
              + if ids[0] in insts && insts[ids[0]].state == state then 1 else 0
  {
    var all, rest := InState(insts, ids, state), InState(insts, ids[1..], state);
    assert ids == [ids[0]] + ids[1..];
    assert all == if ids[0] in insts && insts[ids[0]].state == state then rest + {ids[0]} else rest;
  }
}
