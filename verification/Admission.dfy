/** The admission queue and the HTTP router on top of the scheduler (gateway/queue/queue.go, gateway/router/router.go).

    A request is a program counter; the scheduler underneath is the whole of `SchedulerProtocol`, with its
    leases, uploads and reapers running in between.  `Step` is total, so a run is any sequence of events. */
module Admission {
  import InstancePool
  import S = SchedulerProtocol
  import Sets

  /** A functionQueue: tokens in the semaphore channel, and the queued counter. */
  datatype FunctionQueue = FunctionQueue(sem: nat, queued: int)

  datatype Outcome = QueueFull | QueueTimeout | ClientGone | NotFound | BadBody | NoInstance | Responded

  datatype Request =
    | Entering(func: string)                     // before the first select
    | Overflow(func: string)                     // no token was free
    | Waiting(func: string)                      // queued was incremented, in the second select
    | Granted(func: string)                      // token taken, queued not yet decremented
    | Leaving(func: string, outcome: Outcome)    // timed out or cancelled, queued not yet decremented
    | Routing(func: string)                      // inside router.Invoke, before Get
    | Found(func: string)                        // Get succeeded and the body was read
    | Using(func: string)                        // Acquire was called
    | Finishing(func: string, outcome: Outcome)  // router.Invoke returned, token still held

  datatype Gateway = Gateway(
    sched: S.Sys,
    queues: map<string, FunctionQueue>,
    reqs: map<nat, Request>,
    outcomes: map<nat, Outcome>,
    arrived: set<nat>)

  datatype Limits = Limits(maxInflight: nat, maxQueue: int)

  datatype Event =
    | Arrive(pid: nat, func: string)
    | TryToken(pid: nat)
    | Enqueue(pid: nat)
    | TakeToken(pid: nat)
    | Expire(pid: nat)
    | Cancel(pid: nat)
    | Dequeue(pid: nat)
    | LookUp(pid: nat, bodyRead: bool)
    | Acquire(pid: nat, now: int)
    | AcquireFailed(pid: nat)
    | Respond(pid: nat, now: int)
    | ReturnToken(pid: nat)
    | Scheduler(e: S.Event)

  predicate HasToken(r: Request) { r.Granted? || r.Routing? || r.Found? || r.Using? || r.Finishing? }
  predicate IsQueued(r: Request) { r.Waiting? || r.Granted? || r.Leaving? }

  // ----- the sections on one functionQueue -----

  /** A send on the semaphore channel that does not block. */
  function Push(q: FunctionQueue): FunctionQueue { q.(sem := q.sem + 1) }

  function Pop(q: FunctionQueue): FunctionQueue
    requires q.sem > 0
  {
    q.(sem := q.sem - 1)
  }

  function AddQueued(q: FunctionQueue, n: int): FunctionQueue { q.(queued := q.queued + n) }

  function Get(queues: map<string, FunctionQueue>, func: string): map<string, FunctionQueue> {
    if func in queues then queues else queues[func := FunctionQueue(0, 0)]
  }

  // ----- the steps -----

  function Move(g: Gateway, pid: nat, r: Request): Gateway {
    g.(reqs := g.reqs[pid := r])
  }

  function End(g: Gateway, pid: nat, outcome: Outcome): Gateway {
    g.(reqs := g.reqs - {pid}, outcomes := g.outcomes[pid := outcome])
  }

  function SetQueue(g: Gateway, func: string, q: FunctionQueue): Gateway {
    g.(queues := g.queues[func := q])
  }

  /** A scheduler event that does not belong to a request: requests call Acquire and Release themselves. */
  predicate Foreign(g: Gateway, e: S.Event) {
    && !e.HttpAcquire? && !e.HttpRelease?
    && (e.LeaseCheck? || e.Prewarm? || e.Register? || e.UploadBegin? ==> e.pid !in g.reqs)
  }

  function Step(l: Limits, g: Gateway, e: Event): Gateway {
    if e.Scheduler? then
      if Foreign(g, e.e) then g.(sched := S.Step(g.sched, e.e)) else g
    else if e.Arrive? then
      if e.pid in g.arrived || e.pid in g.sched.procs then g
      else Move(g, e.pid, Entering(e.func)).(queues := Get(g.queues, e.func), arrived := g.arrived + {e.pid})
    else if e.pid !in g.reqs || g.reqs[e.pid].func !in g.queues then g
    else Advance(l, g, e, g.reqs[e.pid], g.queues[g.reqs[e.pid].func])
  }

  /** One step of the request `r == g.reqs[e.pid]`, whose queue is `q`. */
  function Advance(l: Limits, g: Gateway, e: Event, r: Request, q: FunctionQueue): Gateway
    requires !e.Scheduler? && !e.Arrive? && e.pid in g.reqs && g.reqs[e.pid] == r
  {
    var pid, f := e.pid, r.func;
    match e
    case TryToken(_) =>
      if !r.Entering? then g
      else if q.sem < l.maxInflight then SetQueue(Move(g, pid, Routing(f)), f, Push(q))
      else Move(g, pid, Overflow(f))
    case Enqueue(_) =>
      if !r.Overflow? then g
      else if q.queued >= l.maxQueue then End(g, pid, QueueFull)
      else SetQueue(Move(g, pid, Waiting(f)), f, AddQueued(q, 1))
    case TakeToken(_) =>
      if !r.Waiting? || q.sem >= l.maxInflight then g else SetQueue(Move(g, pid, Granted(f)), f, Push(q))
    case Expire(_) => if !r.Waiting? then g else Move(g, pid, Leaving(f, QueueTimeout))
    case Cancel(_) => if !r.Waiting? then g else Move(g, pid, Leaving(f, ClientGone))
    case Dequeue(_) =>
      if r.Granted? then SetQueue(Move(g, pid, Routing(f)), f, AddQueued(q, -1))
      else if r.Leaving? then SetQueue(End(g, pid, r.outcome), f, AddQueued(q, -1))
      else g
    case LookUp(_, bodyRead) =>
      if !r.Routing? then g
      else if f !in g.sched.sh.functions then Move(g, pid, Finishing(f, NotFound))
      else if !bodyRead then Move(g, pid, Finishing(f, BadBody))
      else Move(g, pid, Found(f))
    case Acquire(_, now) =>
      if !r.Found? then g
      else Move(g, pid, Using(f)).(sched := S.Step(g.sched, S.HttpAcquire(pid, f, now)))
    case AcquireFailed(_) =>
      if !r.Using? || pid in g.sched.procs then g else Move(g, pid, Finishing(f, NoInstance))
    case Respond(_, now) =>
      if !r.Using? || !S.HoldsFor(g.sched, pid, false) then g
      else Move(g, pid, Finishing(f, Responded)).(sched := S.Step(g.sched, S.HttpRelease(pid, now)))
    case ReturnToken(_) =>
      if !r.Finishing? || q.sem == 0 then g else SetQueue(End(g, pid, r.outcome), f, Pop(q))
  }

  function Run(l: Limits, g: Gateway, es: seq<Event>): Gateway
    decreases es
  {
    if es == [] then g else Run(l, Step(l, g, es[0]), es[1..])
  }

  // ----- counting requests -----

  datatype Side = Tokens | InQueue

  predicate Counts(side: Side, func: string, r: Request) {
    r.func == func && if side.Tokens? then HasToken(r) else IsQueued(r)
  }

  /** The live requests of a function that hold a token, or that are between increment and decrement of queued. */
  function Members(reqs: map<nat, Request>, side: Side, func: string): set<nat> {
    set pid | pid in reqs && Counts(side, func, reqs[pid])
  }

  function One(b: bool): nat { if b then 1 else 0 }

  lemma CountMoved(reqs: map<nat, Request>, pid: nat, r: Request, side: Side, func: string)
    ensures |Members(reqs[pid := r], side, func)| ==
            |Members(reqs, side, func)| + One(Counts(side, func, r)) - One(pid in reqs && Counts(side, func, reqs[pid]))
  {
    var others := Members(reqs, side, func) - {pid};
    assert Members(reqs[pid := r], side, func) == if Counts(side, func, r) then others + {pid} else others;
    assert Members(reqs, side, func) == if pid in reqs && Counts(side, func, reqs[pid]) then others + {pid} else others;
  }

  lemma CountEnded(reqs: map<nat, Request>, pid: nat, side: Side, func: string)
    requires pid in reqs
    ensures |Members(reqs - {pid}, side, func)| == |Members(reqs, side, func)| - One(Counts(side, func, reqs[pid]))
  {
    hide Counts;
    var all := Members(reqs, side, func);
    assert Members(reqs - {pid}, side, func) == all - {pid};
    assert pid in all <==> Counts(side, func, reqs[pid]);
  }

  // ----- what holds in every reachable state -----

  /** The semaphore and the counter of a function are exactly its requests, and within their limits. */
  ghost predicate QueueAgrees(l: Limits, g: Gateway, func: string)
    requires func in g.queues
  {
    var q := g.queues[func];
    && q.sem == |Members(g.reqs, Tokens, func)| <= l.maxInflight
    && q.queued == |Members(g.reqs, InQueue, func)|
    && (q.queued <= l.maxQueue || q.queued == 0)
  }

  ghost predicate CountersAgree(l: Limits, g: Gateway) {
    && (forall pid :: pid in g.reqs ==> g.reqs[pid].func in g.queues)
    && (forall f :: f in g.queues ==> QueueAgrees(l, g, f))
  }

  predicate IsHttp(p: S.Proc) { (p.ColdStart? || p.Holding?) && p.goal.HttpCall? }

  predicate PidMatches(g: Gateway, pid: nat) {
    pid in g.sched.procs ==>
      if IsHttp(g.sched.procs[pid]) then pid in g.reqs && g.reqs[pid] == Using(g.sched.procs[pid].func)
      else pid !in g.reqs
  }

  /** HTTP cold starts and HTTP holders in the scheduler are requests that called Acquire; no other proc is one. */
  ghost predicate HttpMatches(g: Gateway) {
    forall pid :: PidMatches(g, pid)
  }

  ghost predicate Accounted(g: Gateway) {
    g.arrived == g.reqs.Keys + g.outcomes.Keys && g.reqs.Keys !! g.outcomes.Keys
  }

  ghost predicate Inv(l: Limits, g: Gateway) {
    CountersAgree(l, g) && HttpMatches(g) && Accounted(g) && S.Inv(g.sched)
  }

  /** A step moves or ends only the request that takes it. */
  lemma StepRequests(l: Limits, g: Gateway, e: Event)
    requires Accounted(g)
    ensures var t := Step(l, g, e);
            || t.reqs == g.reqs
            || (!e.Scheduler? && e.pid in t.reqs && t.reqs == g.reqs[e.pid := t.reqs[e.pid]]
                && (e.pid in g.reqs ==> t.reqs[e.pid].func == g.reqs[e.pid].func))
            || (!e.Scheduler? && e.pid in g.reqs && t.reqs == g.reqs - {e.pid})
  {
  }

  lemma StepMembers(l: Limits, g: Gateway, e: Event, side: Side, f: string)
    requires Accounted(g)
    ensures var t := Step(l, g, e);
            |Members(t.reqs, side, f)| == |Members(g.reqs, side, f)|
              + Change(g, t, e, side, f)
  {
    var t := Step(l, g, e);
    StepRequests(l, g, e);
    if t.reqs != g.reqs {
      if e.pid in t.reqs { CountMoved(g.reqs, e.pid, t.reqs[e.pid], side, f); }
      else { CountEnded(g.reqs, e.pid, side, f); }
    }
  }

  function Change(g: Gateway, t: Gateway, e: Event, side: Side, f: string): int {
    if e.Scheduler? then 0
    else One(e.pid in t.reqs && Counts(side, f, t.reqs[e.pid])) - One(e.pid in g.reqs && Counts(side, f, g.reqs[e.pid]))
  }

  function QueueOf(g: Gateway, f: string): FunctionQueue {
    if f in g.queues then g.queues[f] else FunctionQueue(0, 0)
  }

  predicate TouchesSem(e: Event) { e.TryToken? || e.TakeToken? || e.ReturnToken? }

  /** A step changes the semaphore exactly as the request that takes it takes or returns a token. */
  lemma StepSem(l: Limits, g: Gateway, e: Event, f: string)
    requires Accounted(g) && f in Step(l, g, e).queues
    ensures var t := Step(l, g, e);
            && t.queues[f].sem == QueueOf(g, f).sem + Change(g, t, e, Tokens, f)
            && (t.queues[f].sem <= l.maxInflight || t.queues[f].sem <= QueueOf(g, f).sem)
  {
    hide S.Step, S.HoldsFor;
    if e.Scheduler? || e.Arrive? {
      hide Advance;
    } else if e.pid in g.reqs && g.reqs[e.pid].func in g.queues {
      hide Step;
      StepIsAdvance(l, g, e);
      if TouchesSem(e) { TokenMoves(l, g, e, f); } else { SemStays(l, g, e, f); }
    } else {
      hide Advance;
    }
  }

  lemma StepIsAdvance(l: Limits, g: Gateway, e: Event)
    requires !e.Scheduler? && !e.Arrive? && e.pid in g.reqs && g.reqs[e.pid].func in g.queues
    ensures Step(l, g, e) == Advance(l, g, e, g.reqs[e.pid], g.queues[g.reqs[e.pid].func])
  {
    hide Advance;
  }

  lemma TokenMoves(l: Limits, g: Gateway, e: Event, f: string)
    requires TouchesSem(e) && e.pid in g.reqs && g.reqs[e.pid].func in g.queues
    requires f in Advance(l, g, e, g.reqs[e.pid], g.queues[g.reqs[e.pid].func]).queues
    ensures var t := Advance(l, g, e, g.reqs[e.pid], g.queues[g.reqs[e.pid].func]);
            && t.queues[f].sem == QueueOf(g, f).sem + Change(g, t, e, Tokens, f)
            && (t.queues[f].sem <= l.maxInflight || t.queues[f].sem <= QueueOf(g, f).sem)
  {
    hide S.Step, S.HoldsFor;
  }

  lemma SemStays(l: Limits, g: Gateway, e: Event, f: string)
    requires !e.Scheduler? && !e.Arrive? && !TouchesSem(e) && e.pid in g.reqs && g.reqs[e.pid].func in g.queues
    requires f in Advance(l, g, e, g.reqs[e.pid], g.queues[g.reqs[e.pid].func]).queues
    ensures var t := Advance(l, g, e, g.reqs[e.pid], g.queues[g.reqs[e.pid].func]);
            t.queues[f].sem == QueueOf(g, f).sem && Change(g, t, e, Tokens, f) == 0
  {
    hide S.Step, S.HoldsFor;
  }

  /** And the queued counter exactly as that request enters or leaves the waiting states. */
  lemma StepQueued(l: Limits, g: Gateway, e: Event, f: string)
    requires Accounted(g) && f in Step(l, g, e).queues
    ensures var t := Step(l, g, e);
            && t.queues[f].queued == QueueOf(g, f).queued + Change(g, t, e, InQueue, f)
            && (t.queues[f].queued <= l.maxQueue || t.queues[f].queued <= QueueOf(g, f).queued)
  {
    hide S.Step, S.HoldsFor;
    if e.Scheduler? || e.Arrive? {
      hide Advance;
    } else if e.pid in g.reqs && g.reqs[e.pid].func in g.queues {
      hide Step;
      StepIsAdvance(l, g, e);
      if e.Enqueue? || e.Dequeue? { QueuedMoves(l, g, e, f); } else { QueuedStays(l, g, e, f); }
    } else {
      hide Advance;
    }
  }

  lemma QueuedMoves(l: Limits, g: Gateway, e: Event, f: string)
    requires (e.Enqueue? || e.Dequeue?) && e.pid in g.reqs && g.reqs[e.pid].func in g.queues
    requires f in Advance(l, g, e, g.reqs[e.pid], g.queues[g.reqs[e.pid].func]).queues
    ensures var t := Advance(l, g, e, g.reqs[e.pid], g.queues[g.reqs[e.pid].func]);
            && t.queues[f].queued == QueueOf(g, f).queued + Change(g, t, e, InQueue, f)
            && (t.queues[f].queued <= l.maxQueue || t.queues[f].queued <= QueueOf(g, f).queued)
  {
    hide S.Step, S.HoldsFor;
  }

  lemma QueuedStays(l: Limits, g: Gateway, e: Event, f: string)
    requires !e.Scheduler? && !e.Arrive? && !e.Enqueue? && !e.Dequeue? && e.pid in g.reqs
        && g.reqs[e.pid].func in g.queues
    requires f in Advance(l, g, e, g.reqs[e.pid], g.queues[g.reqs[e.pid].func]).queues
    ensures var t := Advance(l, g, e, g.reqs[e.pid], g.queues[g.reqs[e.pid].func]);
            t.queues[f].queued == QueueOf(g, f).queued && Change(g, t, e, InQueue, f) == 0
  {
    hide S.Step, S.HoldsFor;
  }

  lemma StepCounts(l: Limits, g: Gateway, e: Event, f: string)
    requires CountersAgree(l, g) && Accounted(g) && f in Step(l, g, e).queues
    ensures QueueAgrees(l, Step(l, g, e), f)
  {
    StepSem(l, g, e, f);
    StepQueued(l, g, e, f);
    StepMembers(l, g, e, Tokens, f);
    StepMembers(l, g, e, InQueue, f);
    if f !in g.queues {
      assert Members(g.reqs, Tokens, f) == {} && Members(g.reqs, InQueue, f) == {};
    }
  }

  lemma StepKnown(l: Limits, g: Gateway, e: Event)
    requires Accounted(g) && forall pid :: pid in g.reqs ==> g.reqs[pid].func in g.queues
    ensures forall pid :: pid in Step(l, g, e).reqs ==> Step(l, g, e).reqs[pid].func in Step(l, g, e).queues
  {
  }

  lemma StepCounters(l: Limits, g: Gateway, e: Event)
    requires CountersAgree(l, g) && Accounted(g)
    ensures CountersAgree(l, Step(l, g, e))
  {
    StepKnown(l, g, e);
    forall f | f in Step(l, g, e).queues ensures QueueAgrees(l, Step(l, g, e), f) {
      StepCounts(l, g, e, f);
    }
  }

  lemma StepAccounted(l: Limits, g: Gateway, e: Event)
    requires Accounted(g)
    ensures Accounted(Step(l, g, e))
  {
  }

  /** A scheduler step creates an HTTP proc only for HttpAcquire, and turns no other proc into one. */
  lemma ProcBefore(s: S.Sys, e: S.Event, pid: nat)
    requires pid in S.Step(s, e).procs
    ensures var p := S.Step(s, e).procs[pid];
            if pid in s.procs then IsHttp(p) == IsHttp(s.procs[pid]) && (IsHttp(p) ==> p.func == s.procs[pid].func)
            else e.pid == pid && (if IsHttp(p) then e.HttpAcquire? && p.func == e.func
                                  else e.LeaseCheck? || e.Prewarm? || e.Register? || e.UploadBegin?)
  {
  }

  lemma HttpReleased(s: S.Sys, pid: nat, now: int)
    requires S.HoldsFor(s, pid, false)
    ensures S.Step(s, S.HttpRelease(pid, now)).procs == s.procs - {pid}
  {
  }

  /** A request event leaves the scheduler alone, except for the two calls that the router makes. */
  lemma SchedBefore(l: Limits, g: Gateway, e: Event)
    requires !e.Scheduler?
    ensures var t := Step(l, g, e);
            || t.sched == g.sched
            || (e.Acquire? && e.pid in g.reqs && g.reqs[e.pid].Found?
                && t.sched == S.Step(g.sched, S.HttpAcquire(e.pid, g.reqs[e.pid].func, e.now))
                && t.reqs == g.reqs[e.pid := Using(g.reqs[e.pid].func)])
            || (e.Respond? && e.pid in g.reqs && S.HoldsFor(g.sched, e.pid, false)
                && t.sched == S.Step(g.sched, S.HttpRelease(e.pid, e.now))
                && t.reqs == g.reqs[e.pid := Finishing(g.reqs[e.pid].func, Responded)])
  {
  }

  /** While a proc of the scheduler is a request's, that request stays in its Using state. */
  lemma UsingStays(l: Limits, g: Gateway, e: Event, pid: nat)
    requires Accounted(g) && PidMatches(g, pid) && pid in g.sched.procs && !e.Scheduler?
        && Step(l, g, e).sched == g.sched
    ensures pid in Step(l, g, e).reqs <==> pid in g.reqs
    ensures pid in g.reqs ==> Step(l, g, e).reqs[pid] == g.reqs[pid]
  {
  }

  lemma StepHttp(l: Limits, g: Gateway, e: Event)
    requires Accounted(g) && HttpMatches(g)
    ensures HttpMatches(Step(l, g, e))
  {
    var t := Step(l, g, e);
    forall pid ensures PidMatches(t, pid) {
      assert PidMatches(g, pid);
      if pid in t.sched.procs {
        if e.Scheduler? {
          if Foreign(g, e.e) { ProcBefore(g.sched, e.e, pid); }
        } else {
          SchedBefore(l, g, e);
          if t.sched == g.sched { UsingStays(l, g, e, pid); }
          else if e.Acquire? { ProcBefore(g.sched, S.HttpAcquire(e.pid, g.reqs[e.pid].func, e.now), pid); }
          else { HttpReleased(g.sched, e.pid, e.now); }
        }
      }
    }
  }

  lemma StepInv(l: Limits, g: Gateway, e: Event)
    requires Inv(l, g)
    ensures Inv(l, Step(l, g, e))
  {
    StepCounters(l, g, e);
    StepHttp(l, g, e);
    StepAccounted(l, g, e);
    StepScheduler(l, g, e);
  }

  lemma StepScheduler(l: Limits, g: Gateway, e: Event)
    requires S.Inv(g.sched)
    ensures S.Inv(Step(l, g, e).sched)
  {
    if e.Scheduler? {
      S.StepInv(g.sched, e.e);
    } else {
      SchedBefore(l, g, e);
      if e.Acquire? && e.pid in g.reqs { S.StepInv(g.sched, S.HttpAcquire(e.pid, g.reqs[e.pid].func, e.now)); }
      if e.Respond? { S.StepInv(g.sched, S.HttpRelease(e.pid, e.now)); }
    }
  }

  lemma {:induction false} RunInv(l: Limits, g: Gateway, es: seq<Event>)
    requires Inv(l, g)
    ensures Inv(l, Run(l, g, es))
    decreases es
  {
    if es != [] {
      StepInv(l, g, es[0]);
      RunInv(l, Step(l, g, es[0]), es[1..]);
    }
  }

  // ----- the results -----

  /** HTTP calls that hold an instance of `func` or wait for its cold start. */
  function HttpLoad(g: Gateway, func: string): set<nat> {
    set pid | pid in g.sched.procs && IsHttp(g.sched.procs[pid]) && g.sched.procs[pid].func == func
  }

  function Init(functions: map<string, InstancePool.Config>, port: nat, nextCode: nat): Gateway {
    Gateway(S.Init(functions, port, nextCode), map[], map[], map[], {})
  }

  /** In every reachable state: HTTP holders plus HTTP cold starts of a function stay within maxInflight; the
      counters are what they should be; every request that arrived is live or has one outcome; and the
      counters are zero when the function has no live request. */
  lemma AdmissionHolds(l: Limits, functions: map<string, InstancePool.Config>, port: nat, nextCode: nat, es: seq<Event>,
      func: string)
    requires forall f :: f in functions ==> functions[f].code < nextCode
    ensures var g := Run(l, Init(functions, port, nextCode), es);
            && |HttpLoad(g, func)| <= l.maxInflight
            && (func in g.queues ==> QueueAgrees(l, g, func))
            && g.arrived == g.reqs.Keys + g.outcomes.Keys && g.reqs.Keys !! g.outcomes.Keys
            && (func in g.queues && (forall pid :: pid in g.reqs ==> g.reqs[pid].func != func) ==>
                  g.queues[func] == FunctionQueue(0, 0))
  {
    var g0 := Init(functions, port, nextCode);
    S.InitInv(functions, port, nextCode);
    assert Inv(l, g0);
    RunInv(l, g0, es);
    var g := Run(l, g0, es);
    forall pid | pid in HttpLoad(g, func) ensures pid in Members(g.reqs, Tokens, func) {
      assert PidMatches(g, pid);
    }
    Sets.SubsetIsSmaller(HttpLoad(g, func), Members(g.reqs, Tokens, func));
    if HttpLoad(g, func) != {} {
      var pid :| pid in HttpLoad(g, func);
      assert pid in Members(g.reqs, Tokens, func);
    }
    if forall pid :: pid in g.reqs ==> g.reqs[pid].func != func {
      assert Members(g.reqs, Tokens, func) == {} && Members(g.reqs, InQueue, func) == {};
    }
  }

  lemma OutcomeStays(l: Limits, g: Gateway, e: Event, pid: nat)
    requires Accounted(g) && pid in g.outcomes
    ensures pid in Step(l, g, e).outcomes && Step(l, g, e).outcomes[pid] == g.outcomes[pid]
  {
    hide S.Step, S.HoldsFor;
  }

  /** Over any run an outcome is never replaced, and an ended request never becomes live again. */
  lemma {:induction false} OutcomeIsFinal(l: Limits, g: Gateway, es: seq<Event>, pid: nat)
    requires Accounted(g) && pid in g.outcomes
    ensures var t := Run(l, g, es); pid in t.outcomes && t.outcomes[pid] == g.outcomes[pid] && pid !in t.reqs
    decreases es
  {
    if es != [] {
      hide Step;
      OutcomeStays(l, g, es[0], pid);
      StepAccounted(l, g, es[0]);
      OutcomeIsFinal(l, Step(l, g, es[0]), es[1..], pid);
    }
  }

  /** The deferred receive from the semaphore finds a token: it never blocks. */
  lemma TokenIsThere(l: Limits, g: Gateway, pid: nat)
    requires CountersAgree(l, g) && pid in g.reqs && HasToken(g.reqs[pid])
    ensures g.queues[g.reqs[pid].func].sem > 0
  {
    assert QueueAgrees(l, g, g.reqs[pid].func);
    assert pid in Members(g.reqs, Tokens, g.reqs[pid].func);
  }

  predicate Cold(s: S.Sys, pid: nat) { pid in s.procs && s.procs[pid].ColdStart? }

  /** How far a request is from its outcome; a running cold start counts as one more step. */
  function Rank(g: Gateway, pid: nat): nat
    requires pid in g.reqs
  {
    match g.reqs[pid]
    case Entering(_) => 9
    case Overflow(_) => 8
    case Waiting(_) => 7
    case Granted(_) => 6
    case Routing(_) => 5
    case Found(_) => 4
    case Using(_) => if Cold(g.sched, pid) then 3 else 2
    case Leaving(_, _) => 1
    case Finishing(_, _) => 1
  }

  predicate NearerOrEnded(g: Gateway, t: Gateway, pid: nat, least: nat)
    requires pid in g.reqs
  {
    pid in t.outcomes || (pid in t.reqs && Rank(t, pid) + least <= Rank(g, pid))
  }

  lemma NoNewColdStart(s: S.Sys, e: S.Event, pid: nat)
    requires !e.HttpAcquire? && (pid in s.procs ==> IsHttp(s.procs[pid]))
    ensures Cold(S.Step(s, e), pid) ==> Cold(s, pid)
  {
  }

  lemma SchedulerKeepsRank(l: Limits, g: Gateway, e: S.Event, pid: nat)
    requires PidMatches(g, pid) && pid in g.reqs
    ensures NearerOrEnded(g, Step(l, g, Scheduler(e)), pid, 0)
  {
    hide S.Step, Advance;
    if Foreign(g, e) { NoNewColdStart(g.sched, e, pid); }
  }

  lemma CallsTouchOneProc(s: S.Sys, e: S.Event)
    requires e.HttpAcquire? || e.HttpRelease?
    ensures S.Step(s, e).procs - {e.pid} == s.procs - {e.pid}
  {
  }

  lemma OthersKeepRank(l: Limits, g: Gateway, e: Event, pid: nat)
    requires Accounted(g) && !e.Scheduler? && e.pid != pid && pid in g.reqs
    ensures NearerOrEnded(g, Step(l, g, e), pid, 0)
  {
    hide S.Step, Advance, Step, Accounted;
    var t := Step(l, g, e);
    StepRequests(l, g, e);
    SchedBefore(l, g, e);
    if e.Acquire? && e.pid in g.reqs { CallsTouchOneProc(g.sched, S.HttpAcquire(e.pid, g.reqs[e.pid].func, e.now)); }
    if e.Respond? { CallsTouchOneProc(g.sched, S.HttpRelease(e.pid, e.now)); }
    assert t.reqs[pid] == g.reqs[pid];
    assert pid in t.sched.procs <==> pid in t.sched.procs - {e.pid};
    assert pid in g.sched.procs <==> pid in g.sched.procs - {e.pid};
    assert pid in g.sched.procs ==> g.sched.procs[pid] == (g.sched.procs - {e.pid})[pid];
  }

  lemma OwnStepIsNearer(l: Limits, g: Gateway, e: Event)
    requires !e.Scheduler? && e.pid in g.reqs && e.pid in g.arrived
    ensures var t := Step(l, g, e); t == g || NearerOrEnded(g, t, e.pid, 1)
  {
    hide S.Step, S.HoldsFor;
  }

  /** No step takes a request further from its outcome. */
  lemma RankNeverGrows(l: Limits, g: Gateway, e: Event, pid: nat)
    requires Inv(l, g) && pid in g.reqs
    ensures NearerOrEnded(g, Step(l, g, e), pid, 0)
  {
    if e.Scheduler? {
      assert PidMatches(g, pid);
      SchedulerKeepsRank(l, g, e.e, pid);
    } else if e.pid != pid {
      OthersKeepRank(l, g, e, pid);
    } else {
      OwnStepIsNearer(l, g, e);
    }
  }

  /** The step that a request whose Acquire has been called can take. */
  lemma UsingMoves(l: Limits, g: Gateway, pid: nat) returns (e: Event)
    requires PidMatches(g, pid) && S.Exclusive(g.sched) && pid in g.reqs && g.reqs[pid].Using?
        && g.reqs[pid].func in g.queues
    ensures NearerOrEnded(g, Step(l, g, e), pid, 1)
  {
    if pid !in g.sched.procs {
      e := AcquireFailed(pid);
    } else if g.sched.procs[pid].ColdStart? {
      e := Scheduler(S.StartFailed(pid));
    } else {
      assert S.Holds(g.sched, S.ByProc(pid), g.sched.procs[pid].inst);
      e := Respond(pid, 0);
    }
  }

  function NextEvent(r: Request, pid: nat): Event {
    match r
    case Entering(_) => TryToken(pid)
    case Overflow(_) => Enqueue(pid)
    case Waiting(_) => Expire(pid)
    case Granted(_) => Dequeue(pid)
    case Routing(_) => LookUp(pid, true)
    case Found(_) => Acquire(pid, 0)
    case Using(_) => AcquireFailed(pid)
    case Leaving(_, _) => Dequeue(pid)
    case Finishing(_, _) => ReturnToken(pid)
  }

  lemma NextIsEnabled(l: Limits, g: Gateway, pid: nat)
    requires pid in g.reqs && g.reqs[pid].func in g.queues && !g.reqs[pid].Using?
    requires g.reqs[pid].Finishing? ==> g.queues[g.reqs[pid].func].sem > 0
    ensures var t := Step(l, g, NextEvent(g.reqs[pid], pid)); pid !in t.reqs || t.reqs[pid] != g.reqs[pid]
  {
  }

  /** A live request always has a step that takes it nearer to its outcome, or gives it one. */
  lemma NearerStep(l: Limits, g: Gateway, pid: nat) returns (e: Event)
    requires Inv(l, g) && pid in g.reqs
    ensures NearerOrEnded(g, Step(l, g, e), pid, 1)
  {
    if g.reqs[pid].Using? {
      assert PidMatches(g, pid);
      e := UsingMoves(l, g, pid);
    } else {
      if g.reqs[pid].Finishing? { TokenIsThere(l, g, pid); }
      e := NextEvent(g.reqs[pid], pid);
      NextIsEnabled(l, g, pid);
      OwnStepIsNearer(l, g, e);
    }
  }

  /** From every reachable state a live request can be brought to an outcome by at most nine steps, and whatever
      follows, it keeps that outcome. */
  lemma {:induction false} NeverStuck(l: Limits, g: Gateway, pid: nat) returns (es: seq<Event>)
    requires Inv(l, g) && pid in g.reqs
    ensures |es| <= Rank(g, pid) <= 9 && pid in Run(l, g, es).outcomes
    ensures forall more :: var t := Run(l, g, es); var u := Run(l, t, more);
                           pid in u.outcomes && u.outcomes[pid] == t.outcomes[pid] && pid !in u.reqs
    decreases Rank(g, pid)
  {
    hide Step, Inv;
    var e := NearerStep(l, g, pid);
    var t := Step(l, g, e);
    StepInv(l, g, e);
    if pid in t.outcomes {
      es := [e];
      assert Run(l, g, es) == Run(l, t, es[1..]) == t;
      ItsAccounts(l, t);
      forall more
        ensures var u := Run(l, t, more); pid in u.outcomes && u.outcomes[pid] == t.outcomes[pid] && pid !in u.reqs
      {
        OutcomeIsFinal(l, t, more, pid);
      }
    } else {
      var rest := NeverStuck(l, t, pid);
      es := [e] + rest;
      assert es[1..] == rest;
      assert Run(l, g, es) == Run(l, t, rest);
    }
  }

  /** A step of the request itself that changes something, or the end of its cold start. */
  predicate Moves(l: Limits, g: Gateway, e: Event, pid: nat) {
    && pid in g.reqs
    && if e.Scheduler? then Cold(g.sched, pid) && !Cold(Step(l, g, e).sched, pid)
       else e.pid == pid && Step(l, g, e) != g
  }

  function MovesIn(l: Limits, g: Gateway, es: seq<Event>, pid: nat): nat
    decreases es
  {
    if es == [] then 0 else One(Moves(l, g, es[0], pid)) + MovesIn(l, Step(l, g, es[0]), es[1..], pid)
  }

  lemma MoveIsNearer(l: Limits, g: Gateway, e: Event, pid: nat)
    requires Inv(l, g) && Moves(l, g, e, pid)
    ensures NearerOrEnded(g, Step(l, g, e), pid, 1)
  {
    assert PidMatches(g, pid);
    if e.Scheduler? { hide S.Step; } else { OwnStepIsNearer(l, g, e); }
  }

  lemma EndedMovesNot(l: Limits, g: Gateway, e: Event, pid: nat)
    requires Accounted(g) && pid in g.outcomes
    ensures pid !in g.reqs && !Moves(l, g, e, pid)
  {
  }

  /** Over any run each move of the request takes it nearer to its outcome, and nothing takes it away. */
  lemma {:induction false} MovesBringNearer(l: Limits, g: Gateway, es: seq<Event>, pid: nat)
    requires Inv(l, g) && (pid in g.reqs || pid in g.outcomes)
    ensures var t := Run(l, g, es); var moves := MovesIn(l, g, es, pid);
            if pid in g.outcomes then pid in t.outcomes && moves == 0
            else if pid in t.outcomes then moves <= Rank(g, pid)
            else pid in t.reqs && Rank(t, pid) + moves <= Rank(g, pid)
    decreases es
  {
    hide Step, Inv, Moves;
    ItsAccounts(l, g);
    if es != [] {
      var e := es[0];
      StepInv(l, g, e);
      if pid in g.outcomes {
        OutcomeStays(l, g, e, pid);
        EndedMovesNot(l, g, e, pid);
      } else if Moves(l, g, e, pid) {
        MoveIsNearer(l, g, e, pid);
      } else {
        RankNeverGrows(l, g, e, pid);
      }
      MovesBringNearer(l, Step(l, g, e), es[1..], pid);
    }
  }

  /** Whatever else happens in between: after nine moves of its own a request has its outcome; it makes no more. */
  lemma NineMovesEnd(l: Limits, g: Gateway, es: seq<Event>, pid: nat)
    requires Inv(l, g) && pid in g.reqs
    ensures MovesIn(l, g, es, pid) <= 9
    ensures MovesIn(l, g, es, pid) == 9 ==> pid in Run(l, g, es).outcomes
  {
    hide Inv, Run, MovesIn;
    MovesBringNearer(l, g, es, pid);
    ItsAccounts(l, g);
    LiveHasNoOutcome(g, pid);
  }

  lemma LiveHasNoOutcome(g: Gateway, pid: nat)
    requires Accounted(g) && pid in g.reqs
    ensures pid !in g.outcomes
  {
  }

  lemma ItsAccounts(l: Limits, g: Gateway)
    requires Inv(l, g)
    ensures Accounted(g)
  {
  }
}
