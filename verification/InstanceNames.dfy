/** Why the ids that the Kubernetes backend returns are new: they are built from a function's name and a port, and the
    scheduler never gives a port to two starts. */
module InstanceNames {
  import opened InstancePool
  import opened SchedulerProtocol
  import Names

  /** Every instance has the pod name of its function and port, and that function has an accepted name. */
  ghost predicate Named(s: Sys) {
    forall id :: id in s.sh.insts ==>
      s.sh.insts[id].func == Names.GatewayLabel(s.sh.insts[id].func)
      && id == Names.InstanceId(s.sh.insts[id].func, s.sh.insts[id].port)
  }

  /** The assumption of the protocol that a started instance has a new id is met by these names. */
  lemma NewIdIsNew(s: Sys, pid: nat)
    requires Inv(s) && Named(s) && pid in s.procs && Starts(s.procs[pid])
    requires s.procs[pid].func == Names.GatewayLabel(s.procs[pid].func)
    ensures Names.InstanceId(s.procs[pid].func, s.procs[pid].port) !in s.sh.insts
  {
    var p := s.procs[pid];
    var id := Names.InstanceId(p.func, p.port);
    assert Uses(s, ByStart(pid), p.port, p.code);
    if id in s.sh.insts {
      var inst := s.sh.insts[id];
      Names.InstanceIdIsInjective(p.func, p.port, inst.func, inst.port);
      OnePort(s, pid, id);
    }
  }

  lemma OnePort(s: Sys, pid: nat, id: string)
    requires Inv(s) && pid in s.procs && Starts(s.procs[pid]) && id in s.sh.insts
    ensures s.procs[pid].port != s.sh.insts[id].port
  {
    assert Uses(s, ByStart(pid), s.procs[pid].port, s.procs[pid].code);
    assert Uses(s, ByInst(id), s.sh.insts[id].port, s.sh.insts[id].code);
  }

  // ----- over whole runs -----

  predicate Accepted(name: string) { name == Names.GatewayLabel(name) }

  /** Functions are registered under accepted names, and every start returns the pod name of its function and port. */
  predicate NamedEvent(s: Sys, e: Event) {
    && (e.Register? ==> Accepted(e.func))
    && (e.Started? && e.pid in s.procs && Starts(s.procs[e.pid]) ==>
          e.id == Names.InstanceId(s.procs[e.pid].func, s.procs[e.pid].port))
  }

  predicate NamedRun(s: Sys, es: seq<Event>)
    decreases es
  {
    es == [] || (NamedEvent(s, es[0]) && NamedRun(Step(s, es[0]), es[1..]))
  }

  /** Only accepted names are in use. */
  ghost predicate OnlyAccepted(s: Sys) {
    (forall f :: f in s.sh.functions ==> Accepted(f)) && (forall pid :: pid in s.procs ==> Accepted(s.procs[pid].func))
  }

  /** The function of a proc was known before, to the proc or to the scheduler, or is being registered. */
  lemma ProcFunction(s: Sys, e: Event, pid: nat)
    requires pid in Step(s, e).procs
    ensures var func := Step(s, e).procs[pid].func;
            (pid in s.procs && func == s.procs[pid].func) || func in s.sh.functions || (e.Register? && func == e.func)
  {
    hide WellFormed, Grows, Pooled;
    if NoProc(e) {
      hide Step;
      ProcsKept(s, e);
    }
  }

  /** The events that no goroutine between two sections takes part in. */
  predicate NoProc(e: Event) {
    e.LeaseRelease? || e.LeaseReap? || e.IdleReap? || e.RemoveIdle? || e.DeregisterCall?
  }

  lemma ProcsKept(s: Sys, e: Event)
    requires NoProc(e)
    ensures Step(s, e).procs == s.procs
  {
    hide WellFormed, Grows, Pooled;
  }

  lemma KnownFunction(s: Sys, e: Event, func: string)
    requires func in Step(s, e).sh.functions
    ensures func in s.sh.functions || (e.Register? && func == e.func)
         || (e.UploadCommit? && e.pid in s.procs && func == s.procs[e.pid].func)
  {
    hide WellFormed, Grows, Pooled;
  }

  lemma StepAccepted(s: Sys, e: Event)
    requires OnlyAccepted(s) && NamedEvent(s, e)
    ensures OnlyAccepted(Step(s, e))
  {
    hide Step, Accepted;
    var t := Step(s, e);
    forall f | f in t.sh.functions ensures Accepted(f) {
      KnownFunction(s, e, f);
    }
    forall pid | pid in t.procs ensures Accepted(t.procs[pid].func) {
      ProcFunction(s, e, pid);
    }
  }

  lemma StepNamed(s: Sys, e: Event)
    requires Inv(s) && Named(s) && OnlyAccepted(s) && NamedEvent(s, e)
    ensures Named(Step(s, e))
  {
    hide Step, Inv, Names.GatewayLabel, Names.InstanceId;
    var t := Step(s, e);
    forall id | id in t.sh.insts
      ensures t.sh.insts[id].func == Names.GatewayLabel(t.sh.insts[id].func)
      ensures id == Names.InstanceId(t.sh.insts[id].func, t.sh.insts[id].port)
    {
      if id in s.sh.insts { StepGrows(s, e); } else { NewInst(s, e, id); }
    }
  }

  lemma StartPools(s: Sys, pid: nat, id: string, now: int)
    requires Inv(s) && pid in s.procs && Starts(s.procs[pid]) && id !in s.sh.insts
    ensures var t := Step(s, Started(pid, id, now)); id in t.sh.insts && Pooled(t.sh, id)
  {
  }

  /** Starting under that name keeps all instances so named, and pools the new one. */
  lemma StartKeepsNames(s: Sys, pid: nat, now: int)
    requires Inv(s) && Named(s) && OnlyAccepted(s) && pid in s.procs && Starts(s.procs[pid])
    ensures var p := s.procs[pid]; var id := Names.InstanceId(p.func, p.port);
            var t := Step(s, Started(pid, id, now));
            Named(t) && id in t.sh.insts && Pooled(t.sh, id)
  {
    hide Step, Inv, Named;
    var id := Names.InstanceId(s.procs[pid].func, s.procs[pid].port);
    NewIdIsNew(s, pid);
    StepNamed(s, Started(pid, id, now));
    StartPools(s, pid, id, now);
  }

  lemma {:induction false} RunNamed(s: Sys, es: seq<Event>)
    requires Inv(s) && Named(s) && OnlyAccepted(s) && NamedRun(s, es)
    ensures var t := Run(s, es); Inv(t) && Named(t) && OnlyAccepted(t)
    decreases es
  {
    if es != [] {
      hide Step, Inv, Named, OnlyAccepted, NamedEvent;
      StepInv(s, es[0]);
      StepNamed(s, es[0]);
      StepAccepted(s, es[0]);
      RunNamed(Step(s, es[0]), es[1..]);
    }
  }

  /** In every reachable state the pod name of a running start names no instance so far: the ids are new throughout. */
  lemma IdsAreNew(functions: map<string, Config>, port: nat, nextCode: nat, es: seq<Event>, pid: nat)
    requires forall f :: f in functions ==> Accepted(f) && functions[f].code < nextCode
    requires NamedRun(Init(functions, port, nextCode), es)
    ensures var s := Run(Init(functions, port, nextCode), es);
            pid in s.procs && Starts(s.procs[pid])
            ==> Names.InstanceId(s.procs[pid].func, s.procs[pid].port) !in s.sh.insts
  {
    InitInv(functions, port, nextCode);
    RunNamed(Init(functions, port, nextCode), es);
    var s := Run(Init(functions, port, nextCode), es);
    if pid in s.procs && Starts(s.procs[pid]) {
      assert Accepted(s.procs[pid].func);
      NewIdIsNew(s, pid);
    }
  }
}
