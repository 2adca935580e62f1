/** Which outcome a request gets: exactly one event of the run decides it, and it is the outcome this event gives. */
module AdmissionOutcomes {
  import opened Admission
  import InstancePool
  import S = SchedulerProtocol

  // ----- the events that decide -----

  /** The request, whose first select found the semaphore full, meets a full queue. */
  predicate MeetsFullQueue(l: Limits, g: Gateway, e: Event, pid: nat) {
    && e == Enqueue(pid) && pid in g.reqs && g.reqs[pid].Overflow? && g.reqs[pid].func in g.queues
    && g.queues[g.reqs[pid].func].queued >= l.maxQueue
  }

  predicate TimesOut(g: Gateway, e: Event, pid: nat) {
    e == Expire(pid) && pid in g.reqs && g.reqs[pid].Waiting? && g.reqs[pid].func in g.queues
  }

  predicate IsCancelled(g: Gateway, e: Event, pid: nat) {
    e == Cancel(pid) && pid in g.reqs && g.reqs[pid].Waiting? && g.reqs[pid].func in g.queues
  }

  /** With its token the request looks its function up, and it is not registered. */
  predicate MeetsNoFunction(g: Gateway, e: Event, pid: nat) {
    && e.LookUp? && e.pid == pid && pid in g.reqs && g.reqs[pid].Routing? && g.reqs[pid].func in g.queues
    && g.reqs[pid].func !in g.sched.sh.functions
  }

  /** The function is registered, but the body cannot be read. */
  predicate BodyFails(g: Gateway, e: Event, pid: nat) {
    && e == LookUp(pid, false) && pid in g.reqs && g.reqs[pid].Routing? && g.reqs[pid].func in g.queues
    && g.reqs[pid].func in g.sched.sh.functions
  }

  /** Acquire was called, and has neither an instance nor a start for the request any more. */
  predicate IsLeftWithout(g: Gateway, e: Event, pid: nat) {
    && e == AcquireFailed(pid) && pid in g.reqs && g.reqs[pid].Using? && g.reqs[pid].func in g.queues
    && pid !in g.sched.procs
  }

  /** The request responds while it holds an instance of its function. */
  predicate Responds(g: Gateway, e: Event, pid: nat) {
    && e.Respond? && e.pid == pid && pid in g.reqs && g.reqs[pid].Using? && g.reqs[pid].func in g.queues
    && pid in g.sched.procs && g.sched.procs[pid].Holding? && g.sched.procs[pid].goal == S.HttpCall
    && g.sched.procs[pid].func == g.reqs[pid].func && g.sched.procs[pid].inst in g.sched.sh.insts
  }

  predicate Decides(l: Limits, g: Gateway, e: Event, pid: nat, o: Outcome) {
    match o
    case QueueFull => MeetsFullQueue(l, g, e, pid)
    case QueueTimeout => TimesOut(g, e, pid)
    case ClientGone => IsCancelled(g, e, pid)
    case NotFound => MeetsNoFunction(g, e, pid)
    case BadBody => BodyFails(g, e, pid)
    case NoInstance => IsLeftWithout(g, e, pid)
    case Responded => Responds(g, e, pid)
  }

  /** Event k of the run decides for this outcome. */
  predicate DecidedAt(l: Limits, g: Gateway, es: seq<Event>, k: nat, pid: nat, o: Outcome) {
    k < |es| && Decides(l, Run(l, g, es[..k]), es[k], pid, o)
  }

  ghost predicate Decided(l: Limits, g: Gateway, es: seq<Event>, pid: nat, o: Outcome) {
    exists k: nat :: DecidedAt(l, g, es, k, pid, o)
  }

  // ----- every step -----

  /** The outcome that stands, whether the request has ended or is on its way out. */
  predicate Stands(g: Gateway, pid: nat, o: Outcome) {
    || (pid in g.outcomes && g.outcomes[pid] == o)
    || (pid in g.reqs && (g.reqs[pid].Leaving? || g.reqs[pid].Finishing?) && g.reqs[pid].outcome == o)
  }

  predicate Open(g: Gateway, pid: nat) { forall o :: !Stands(g, pid, o) }

  /** An outcome stands after a step if it stood before, or if the step decides for it; and nothing decides twice. */
  lemma StepStands(l: Limits, g: Gateway, e: Event, pid: nat, o: Outcome)
    requires Inv(l, g)
    ensures Stands(Step(l, g, e), pid, o) <==> Stands(g, pid, o) || Decides(l, g, e, pid, o)
    ensures Decides(l, g, e, pid, o) ==> Open(g, pid)
  {
    InvFacts(l, g, pid);
    hide Inv, Step, Stands, Decides, Open, Accounted;
    if e.Scheduler? || e.Arrive? || e.pid != pid {
      NotItsOwn(l, g, e, pid);
      NotItsDecision(l, g, e, pid, o);
    } else if pid in g.reqs {
      OwnStands(l, g, e, o);
    } else {
      Absent(l, g, e, o);
    }
  }

  lemma NotItsDecision(l: Limits, g: Gateway, e: Event, pid: nat, o: Outcome)
    requires e.Scheduler? || e.Arrive? || e.pid != pid
    ensures !Decides(l, g, e, pid, o)
  {
  }

  lemma Absent(l: Limits, g: Gateway, e: Event, o: Outcome)
    requires !e.Scheduler? && !e.Arrive? && e.pid !in g.reqs
    ensures Step(l, g, e) == g && !Decides(l, g, e, e.pid, o)
  {
  }

  lemma InvFacts(l: Limits, g: Gateway, pid: nat)
    requires Inv(l, g)
    ensures Accounted(g) && PidMatches(g, pid)
    ensures pid in g.reqs ==> g.reqs[pid].func in g.queues
    ensures pid in g.reqs && HasToken(g.reqs[pid]) ==> g.queues[g.reqs[pid].func].sem > 0
  {
    if pid in g.reqs && HasToken(g.reqs[pid]) { TokenIsThere(l, g, pid); }
  }

  lemma NotItsOwn(l: Limits, g: Gateway, e: Event, pid: nat)
    requires Accounted(g) && (e.Scheduler? || e.Arrive? || e.pid != pid)
    ensures var t := Step(l, g, e); forall o :: Stands(t, pid, o) <==> Stands(g, pid, o)
  {
    hide S.Step, S.HoldsFor;
  }

  lemma OwnStands(l: Limits, g: Gateway, e: Event, o: Outcome)
    requires !e.Scheduler? && !e.Arrive? && e.pid in g.reqs && Accounted(g) && PidMatches(g, e.pid)
    requires g.reqs[e.pid].func in g.queues
    requires HasToken(g.reqs[e.pid]) ==> g.queues[g.reqs[e.pid].func].sem > 0
    ensures Stands(Step(l, g, e), e.pid, o) <==> Stands(g, e.pid, o) || Decides(l, g, e, e.pid, o)
    ensures Decides(l, g, e, e.pid, o) ==> Open(g, e.pid)
  {
    hide S.Step;
  }

  // ----- every run -----

  lemma {:induction false} RunLast(l: Limits, g: Gateway, es: seq<Event>, e: Event)
    ensures Run(l, g, es + [e]) == Step(l, Run(l, g, es), e)
    decreases |es|
  {
    hide Step;
    if es == [] {
      assert [] + [e] == [e] && [e][1..] == [];
    } else {
      assert (es + [e])[0] == es[0] && (es + [e])[1..] == es[1..] + [e];
      RunLast(l, Step(l, g, es[0]), es[1..], e);
    }
  }

  lemma {:induction false} DecidedMore(l: Limits, g: Gateway, es: seq<Event>, e: Event, pid: nat, o: Outcome)
    ensures Decided(l, g, es + [e], pid, o) <==> Decided(l, g, es, pid, o) || Decides(l, Run(l, g, es), e, pid, o)
  {
    hide Run, Decides;
    assert (es + [e])[..|es|] == es;
    if Decided(l, g, es, pid, o) {
      var k: nat :| DecidedAt(l, g, es, k, pid, o);
      assert (es + [e])[..k] == es[..k];
      assert DecidedAt(l, g, es + [e], k, pid, o);
    }
    if Decides(l, Run(l, g, es), e, pid, o) {
      assert DecidedAt(l, g, es + [e], |es|, pid, o);
    }
    if Decided(l, g, es + [e], pid, o) {
      var k: nat :| DecidedAt(l, g, es + [e], k, pid, o);
      if k < |es| {
        assert (es + [e])[..k] == es[..k];
        assert DecidedAt(l, g, es, k, pid, o);
      }
    }
  }

  lemma {:induction false} RunStands(l: Limits, g: Gateway, es: seq<Event>, pid: nat, o: Outcome)
    requires Inv(l, g) && Open(g, pid)
    ensures Inv(l, Run(l, g, es))
    ensures Stands(Run(l, g, es), pid, o) <==> Decided(l, g, es, pid, o)
    decreases |es|
  {
    if es != [] {
      hide Inv, Step, Stands, Decides, Decided, Open;
      var m := |es| - 1;
      assert es == es[..m] + [es[m]];
      RunStands(l, g, es[..m], pid, o);
      RunLast(l, g, es[..m], es[m]);
      StepInv(l, Run(l, g, es[..m]), es[m]);
      StepStands(l, Run(l, g, es[..m]), es[m], pid, o);
      DecidedMore(l, g, es[..m], es[m], pid, o);
    }
  }

  /** Over any run from the start: a request has ended with an outcome only if an event of the run decided for it, and
      then with that outcome and no other. */
  lemma OutcomesExactly(l: Limits, functions: map<string, InstancePool.Config>, port: nat, nextCode: nat,
                        es: seq<Event>, pid: nat, o: Outcome)
    requires forall f :: f in functions ==> functions[f].code < nextCode
    ensures var g0 := Init(functions, port, nextCode);
            var g := Run(l, g0, es);
            pid in g.outcomes ==> (g.outcomes[pid] == o <==> Decided(l, g0, es, pid, o))
  {
    var g0 := Init(functions, port, nextCode);
    StartHolds(l, functions, port, nextCode);
    RunStands(l, g0, es, pid, o);
    InvFacts(l, Run(l, g0, es), pid);
  }

  lemma StartHolds(l: Limits, functions: map<string, InstancePool.Config>, port: nat, nextCode: nat)
    requires forall f :: f in functions ==> functions[f].code < nextCode
    ensures Inv(l, Init(functions, port, nextCode))
  {
    S.InitInv(functions, port, nextCode);
  }

  // ----- what came before -----

  /** The request of this function arrives for the first time. */
  predicate ArrivesAt(l: Limits, g: Gateway, es: seq<Event>, k: nat, pid: nat, func: string) {
    k < |es| && es[k] == Arrive(pid, func) && pid !in Run(l, g, es[..k]).arrived
  }

  /** Its first select finds all tokens taken. */
  predicate FoundFullAt(l: Limits, g: Gateway, es: seq<Event>, k: nat, pid: nat, func: string) {
    k < |es| && es[k] == TryToken(pid)
    && var h := Run(l, g, es[..k]);
       pid in h.reqs && h.reqs[pid] == Entering(func) && func in h.queues && h.queues[func].sem >= l.maxInflight
  }

  ghost predicate FoundFull(l: Limits, g: Gateway, es: seq<Event>, pid: nat, func: string) {
    exists k: nat :: FoundFullAt(l, g, es, k, pid, func)
  }

  ghost predicate Arrived(l: Limits, g: Gateway, es: seq<Event>, pid: nat, func: string) {
    exists k: nat :: ArrivesAt(l, g, es, k, pid, func)
  }

  /** It did not get a token at once. */
  predicate WasRefused(r: Request) { r.Overflow? || r.Waiting? || r.Granted? || r.Leaving? }

  ghost predicate Remembered(l: Limits, g: Gateway, es: seq<Event>, pid: nat) {
    var h := Run(l, g, es);
    && (pid in h.reqs ==> Arrived(l, g, es, pid, h.reqs[pid].func))
    && (pid in h.reqs && WasRefused(h.reqs[pid]) ==> FoundFull(l, g, es, pid, h.reqs[pid].func))
    && (pid in h.outcomes && h.outcomes[pid] in {QueueFull, QueueTimeout, ClientGone} ==>
          exists func :: FoundFull(l, g, es, pid, func) && Arrived(l, g, es, pid, func))
  }

  lemma {:induction false} StillRemembered(l: Limits, g: Gateway, es: seq<Event>, e: Event, pid: nat, func: string)
    ensures Arrived(l, g, es, pid, func) ==> Arrived(l, g, es + [e], pid, func)
    ensures FoundFull(l, g, es, pid, func) ==> FoundFull(l, g, es + [e], pid, func)
  {
    hide Run;
    if Arrived(l, g, es, pid, func) {
      var k: nat :| ArrivesAt(l, g, es, k, pid, func);
      assert (es + [e])[..k] == es[..k];
      assert ArrivesAt(l, g, es + [e], k, pid, func);
    }
    if FoundFull(l, g, es, pid, func) {
      var k: nat :| FoundFullAt(l, g, es, k, pid, func);
      assert (es + [e])[..k] == es[..k];
      assert FoundFullAt(l, g, es + [e], k, pid, func);
    }
  }

  lemma {:induction false} HappensHere(l: Limits, g: Gateway, es: seq<Event>, e: Event, pid: nat, func: string)
    ensures e == Arrive(pid, func) && pid !in Run(l, g, es).arrived ==> Arrived(l, g, es + [e], pid, func)
    ensures var h := Run(l, g, es);
            (e == TryToken(pid) && pid in h.reqs && h.reqs[pid] == Entering(func) && func in h.queues
             && h.queues[func].sem >= l.maxInflight) ==> FoundFull(l, g, es + [e], pid, func)
  {
    hide Run;
    assert (es + [e])[..|es|] == es;
    if e == Arrive(pid, func) && pid !in Run(l, g, es).arrived {
      assert ArrivesAt(l, g, es + [e], |es|, pid, func);
    }
    if e == TryToken(pid) && FoundFullAt(l, g, es + [e], |es|, pid, func) {
      assert FoundFull(l, g, es + [e], pid, func);
    }
  }

  /** Where a request comes from: its arrival, its first select, or where it stood before with the same function. */
  lemma RequestBefore(l: Limits, g: Gateway, e: Event, pid: nat)
    requires Accounted(g) && (pid in g.reqs ==> g.reqs[pid].func in g.queues)
    ensures var t := Step(l, g, e);
            && (pid in t.reqs ==>
                  || (e == Arrive(pid, t.reqs[pid].func) && pid !in g.arrived && t.reqs[pid].Entering?)
                  || (pid in g.reqs && g.reqs[pid].func == t.reqs[pid].func
                      && (WasRefused(t.reqs[pid]) ==>
                            WasRefused(g.reqs[pid])
                            || (e == TryToken(pid) && g.reqs[pid].Entering?
                                && g.queues[g.reqs[pid].func].sem >= l.maxInflight))))
  {
    hide S.Step, S.HoldsFor;
  }

  lemma OutcomeBefore(l: Limits, g: Gateway, e: Event, pid: nat)
    requires Accounted(g) && pid in Step(l, g, e).outcomes
    ensures var o := Step(l, g, e).outcomes[pid];
            || (pid in g.outcomes && g.outcomes[pid] == o)
            || (pid in g.reqs && g.reqs[pid].Finishing? && g.reqs[pid].outcome == o)
            || (pid in g.reqs && WasRefused(g.reqs[pid]))
  {
    hide S.Step, S.HoldsFor;
  }

  /** Only a request that was refused a token at once leaves the queue with one of its outcomes. */
  predicate RightWay(g: Gateway, pid: nat) {
    pid in g.reqs && g.reqs[pid].Finishing? ==> g.reqs[pid].outcome !in {QueueFull, QueueTimeout, ClientGone}
  }

  lemma StepRightWay(l: Limits, g: Gateway, e: Event, pid: nat)
    requires RightWay(g, pid)
    ensures RightWay(Step(l, g, e), pid)
  {
    hide S.Step, S.HoldsFor;
  }

  lemma {:induction false} RunRemembered(l: Limits, g: Gateway, es: seq<Event>, pid: nat)
    requires Inv(l, g) && pid !in g.reqs && pid !in g.outcomes
    ensures Inv(l, Run(l, g, es)) && RightWay(Run(l, g, es), pid) && Remembered(l, g, es, pid)
    decreases |es|
  {
    if es != [] {
      hide Inv, Step, Run, Arrived, FoundFull, RightWay, Accounted, WasRefused;
      var m := |es| - 1;
      assert es == es[..m] + [es[m]];
      RunRemembered(l, g, es[..m], pid);
      RunLast(l, g, es[..m], es[m]);
      var h, e := Run(l, g, es[..m]), es[m];
      StepInv(l, h, e);
      StepRightWay(l, h, e, pid);
      InvFacts(l, h, pid);
      StepRemembers(l, g, es[..m], e, pid);
    }
  }

  lemma {:induction false} StepRemembers(l: Limits, g: Gateway, es: seq<Event>, e: Event, pid: nat)
    requires Remembered(l, g, es, pid) && RightWay(Run(l, g, es), pid) && Accounted(Run(l, g, es))
    requires pid in Run(l, g, es).reqs ==> Run(l, g, es).reqs[pid].func in Run(l, g, es).queues
    ensures Remembered(l, g, es + [e], pid)
  {
    hide Step, Run, Arrived, FoundFull, Accounted, WasRefused;
    RunLast(l, g, es, e);
    var h := Run(l, g, es);
    var t := Step(l, h, e);
    RequestBefore(l, h, e, pid);
    if pid in t.reqs {
      StillRemembered(l, g, es, e, pid, t.reqs[pid].func);
      HappensHere(l, g, es, e, pid, t.reqs[pid].func);
      EnteringIsNew(t.reqs[pid]);
    }
    if pid in t.outcomes {
      OutcomeBefore(l, h, e, pid);
      if pid in h.reqs { StillRemembered(l, g, es, e, pid, h.reqs[pid].func); }
      forall func { StillRemembered(l, g, es, e, pid, func); }
    }
  }

  lemma EnteringIsNew(r: Request)
    ensures r.Entering? ==> !WasRefused(r)
  {
  }

  /** A request that was turned away at the queue, timed out in it or left it had found all tokens of its function
      taken;
      and every request is for the function that it arrived for. */
  lemma QueuedWereRefused(l: Limits, functions: map<string, InstancePool.Config>, port: nat, nextCode: nat,
                          es: seq<Event>, pid: nat)
    requires forall f :: f in functions ==> functions[f].code < nextCode
    ensures var g0 := Init(functions, port, nextCode);
            var g := Run(l, g0, es);
            && (pid in g.reqs ==> Arrived(l, g0, es, pid, g.reqs[pid].func))
            && (pid in g.outcomes && g.outcomes[pid] in {QueueFull, QueueTimeout, ClientGone} ==>
                  exists func :: FoundFull(l, g0, es, pid, func) && Arrived(l, g0, es, pid, func))
  {
    StartHolds(l, functions, port, nextCode);
    RunRemembered(l, Init(functions, port, nextCode), es, pid);
  }

  // ----- what one step of a request does -----

  /** Before its token: the first select takes a token exactly when one is free, the queue has room exactly below its
      limit, and a waiting request takes a token as soon as one is free. */
  lemma QueueEffect(l: Limits, g: Gateway, pid: nat, f: string)
    requires pid in g.reqs && f in g.queues
    ensures var q := g.queues[f];
            var took := g.queues[f := q.(sem := q.sem + 1)];
            && (g.reqs[pid] == Entering(f) ==>
                  Step(l, g, TryToken(pid))
                  == if q.sem < l.maxInflight then g.(reqs := g.reqs[pid := Routing(f)], queues := took)
                     else g.(reqs := g.reqs[pid := Overflow(f)]))
            && (g.reqs[pid] == Waiting(f) ==>
                  Step(l, g, TakeToken(pid))
                  == if q.sem < l.maxInflight then g.(reqs := g.reqs[pid := Granted(f)], queues := took) else g)
    ensures var q := g.queues[f];
            g.reqs[pid] == Overflow(f) ==>
              Step(l, g, Enqueue(pid))
              == if q.queued < l.maxQueue then
                   g.(reqs := g.reqs[pid := Waiting(f)], queues := g.queues[f := q.(queued := q.queued + 1)])
                 else g.(reqs := g.reqs - {pid}, outcomes := g.outcomes[pid := QueueFull])
  {
    hide S.Step, S.HoldsFor;
  }

  /** Leaving the queue gives its place back, with a token for the router or with the outcome; the end of the router's
      call gives the token back. */
  lemma LeaveEffect(l: Limits, g: Gateway, pid: nat, f: string, o: Outcome)
    requires pid in g.reqs && f in g.queues
    ensures var q := g.queues[f];
            var left := g.queues[f := q.(queued := q.queued - 1)];
            && (g.reqs[pid] == Granted(f) ==>
                  Step(l, g, Dequeue(pid)) == g.(reqs := g.reqs[pid := Routing(f)], queues := left))
            && (g.reqs[pid] == Leaving(f, o) ==>
                  Step(l, g, Dequeue(pid))
                  == g.(reqs := g.reqs - {pid}, outcomes := g.outcomes[pid := o], queues := left))
            && (g.reqs[pid] == Finishing(f, o) && q.sem > 0 ==>
                  Step(l, g, ReturnToken(pid))
                  == g.(reqs := g.reqs - {pid}, outcomes := g.outcomes[pid := o],
                        queues := g.queues[f := q.(sem := q.sem - 1)]))
  {
    hide S.Step, S.HoldsFor;
  }

  /** With its token: a request for a registered function with a body calls Acquire for that function, and its response
      releases what it holds. */
  lemma RouterEffect(l: Limits, g: Gateway, pid: nat, f: string, now: int)
    requires pid in g.reqs && f in g.queues
    ensures g.reqs[pid] == Routing(f) && f in g.sched.sh.functions ==>
              Step(l, g, LookUp(pid, true)) == g.(reqs := g.reqs[pid := Found(f)])
    ensures g.reqs[pid] == Found(f) ==>
              Step(l, g, Acquire(pid, now))
              == g.(reqs := g.reqs[pid := Using(f)], sched := S.Step(g.sched, S.HttpAcquire(pid, f, now)))
    ensures g.reqs[pid] == Using(f) && S.HoldsFor(g.sched, pid, false) ==>
              Step(l, g, Respond(pid, now))
              == g.(reqs := g.reqs[pid := Finishing(f, Responded)], sched := S.Step(g.sched, S.HttpRelease(pid, now)))
  {
    hide S.Step, S.HoldsFor;
  }
}
