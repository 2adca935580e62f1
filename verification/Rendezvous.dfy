/** runtime/cmd/runtime/main.go: callers queue invocations, pollers take them, responders answer them.

    Each mutex section, sync.Map operation and channel operation is one step.  A caller is named by the fresh id of its
    invocation; pollers and responders by the number of their request.  Time never runs backwards. */
module Rendezvous {
  import opened Options
  import Sets

  datatype Invocation = Invocation(id: string, deadline: int)
  datatype Response = Response(statusCode: int, body: string)

  datatype Phase =
    | Notifying                       // queued, before the send to notify
    | Announced                       // after it
    | Waiting(timer: int)             // in the final select, whose timer started when it was entered
    | Forgetting                      // timed out, before inflight.Delete
    | Unqueueing                      // before removeQueuedInvocation
    | TimedOut                        // 504
    | Answered(response: Response)    // 200

  /** The deadline is set before the mutex is taken, `timeout` after some moment not later than that; `no` counts
      admissions. */
  datatype Caller = Caller(deadline: int, timeout: nat, no: nat, phase: Phase)

  datatype Poller = Looping | Discarding(id: string) | Sleeping | Took(id: string) | Gone

  /** A response between LoadAndDelete and the send. */
  datatype Sending = Sending(id: string, response: Response)

  datatype Sys = Sys(
    now: int, queue: seq<Invocation>, inflight: set<string>, results: map<string, Option<Response>>, token: bool,
    callers: map<string, Caller>, pollers: map<nat, Poller>, responders: map<nat, Sending>,
    nextNo: nat, refused: set<string>,
    dispatched: seq<string>, accepted: map<string, Response>)

  datatype Event =
    | Tick(now: int)
    | Call(id: string, made: int, timeout: nat)
    | Notify(id: string)
    | Select(id: string)
    | Receive(id: string)
    | Timeout(id: string)
    | Forget(id: string)
    | Unqueue(id: string)
    | Poll(p: nat)
    | Next(p: nat)
    | Discard(p: nat)
    | Wake(p: nat)
    | GiveUp(p: nat)
    | Respond(r: nat, id: string, response: Response)
    | Send(r: nat)

  const INIT := Sys(0, [], {}, map[], false, map[], map[], map[], 0, {}, [], map[])

  /** removeQueuedInvocation: the first entry with this id. */
  function Remove(queue: seq<Invocation>, id: string): (r: seq<Invocation>)
    ensures |r| <= |queue|
  {
    if queue == [] then []
    else if queue[0].id == id then queue[1..]
    else [queue[0]] + Remove(queue[1..], id)
  }

  predicate Is(s: Sys, id: string, phase: Phase) { id in s.callers && s.callers[id].phase == phase }
  predicate Waits(s: Sys, id: string) { id in s.callers && s.callers[id].phase.Waiting? }
  predicate Doing(s: Sys, p: nat, poller: Poller) { p in s.pollers && s.pollers[p] == poller }

  function Go(s: Sys, id: string, phase: Phase): Sys
    requires id in s.callers
  {
    s.(callers := s.callers[id := s.callers[id].(phase := phase)])
  }

  /** The mutex section of handleNext. */
  function TakeHead(s: Sys, p: nat): Sys {
    if s.queue == [] then s.(pollers := s.pollers[p := Sleeping])
    else
      var head := s.queue[0];
      if s.now > head.deadline then s.(queue := s.queue[1..], pollers := s.pollers[p := Discarding(head.id)])
      else s.(queue := s.queue[1..], pollers := s.pollers[p := Took(head.id)], dispatched := s.dispatched + [head.id])
  }

  function Admit(s: Sys, limit: nat, id: string, deadline: int, timeout: nat): Sys {
    if |s.queue| >= limit then s.(refused := s.refused + {id})
    else
      s.(inflight := s.inflight + {id}, queue := s.queue + [Invocation(id, deadline)], results := s.results[id := None],
         callers := s.callers[id := Caller(deadline, timeout, s.nextNo, Notifying)], nextNo := s.nextNo + 1)
  }

  function CallerStep(limit: nat, s: Sys, e: Event): Sys
    requires OfCaller(e)
  {
    match e
    case Call(id, made, timeout) =>
      if id in s.callers || id in s.refused || made > s.now then s else Admit(s, limit, id, made + timeout, timeout)
    case Notify(id) => if Is(s, id, Notifying) then Go(s, id, Announced).(token := true) else s
    case Select(id) => if Is(s, id, Announced) then Go(s, id, Waiting(s.now + s.callers[id].timeout)) else s
    case Receive(id) =>
      if !Waits(s, id) || id !in s.results || s.results[id] == None then s
      else Go(s, id, Answered(s.results[id].value)).(results := s.results[id := None])
    case Timeout(id) => if Waits(s, id) && s.now >= s.callers[id].phase.timer then Go(s, id, Forgetting) else s
    case Forget(id) => if Is(s, id, Forgetting) then Go(s, id, Unqueueing).(inflight := s.inflight - {id}) else s
    case Unqueue(id) => if Is(s, id, Unqueueing) then Go(s, id, TimedOut).(queue := Remove(s.queue, id)) else s
  }

  function PollerStep(s: Sys, e: Event): Sys
    requires OfPoller(e)
  {
    match e
    case Poll(p) => if p in s.pollers then s else s.(pollers := s.pollers[p := Looping])
    case Next(p) => if Doing(s, p, Looping) then TakeHead(s, p) else s
    case Discard(p) =>
      if p in s.pollers && s.pollers[p].Discarding? then
        s.(inflight := s.inflight - {s.pollers[p].id}, pollers := s.pollers[p := Looping])
      else s
    case Wake(p) =>
      if Doing(s, p, Sleeping) && s.token then s.(token := false, pollers := s.pollers[p := Looping]) else s
    case GiveUp(p) => if Doing(s, p, Sleeping) then s.(pollers := s.pollers[p := Gone]) else s
  }

  function ResponderStep(s: Sys, e: Event): Sys
    requires OfResponder(e)
  {
    match e
    case Respond(r, id, response) =>
      if r in s.responders || id !in s.inflight then s
      else s.(inflight := s.inflight - {id}, responders := s.responders[r := Sending(id, response)],
              accepted := s.accepted[id := response])
    case Send(r) =>
      if r !in s.responders || s.responders[r].id !in s.results || s.results[s.responders[r].id] != None then s
      else s.(results := s.results[s.responders[r].id := Some(s.responders[r].response)],
          responders := s.responders - {r})
  }

  predicate OfCaller(e: Event) {
    e.Call? || e.Notify? || e.Select? || e.Receive? || e.Timeout? || e.Forget? || e.Unqueue?
  }

  predicate OfPoller(e: Event) { e.Poll? || e.Next? || e.Discard? || e.Wake? || e.GiveUp? }
  predicate OfResponder(e: Event) { e.Respond? || e.Send? }

  function Step(limit: nat, s: Sys, e: Event): Sys {
    if OfCaller(e) then CallerStep(limit, s, e)
    else if OfPoller(e) then PollerStep(s, e)
    else if OfResponder(e) then ResponderStep(s, e)
    else if e.now > s.now then s.(now := e.now)
    else s
  }

  function Run(limit: nat, s: Sys, events: seq<Event>): Sys
    decreases |events|
  {
    if events == [] then s else Run(limit, Step(limit, s, events[0]), events[1..])
  }

  // ----- order -----

  function No(s: Sys, id: string): int { if id in s.callers then s.callers[id].no else -1 }

  /** Numbers are given once, in the order of admission. */
  predicate Numbered(s: Sys) {
    && (forall id :: id in s.callers ==> s.callers[id].no < s.nextNo)
    && (forall a, b :: a in s.callers && b in s.callers && s.callers[a].no == s.callers[b].no ==> a == b)
  }

  predicate QueueKnown(s: Sys) {
    forall i :: 0 <= i < |s.queue| ==>
      s.queue[i].id in s.callers && s.queue[i].deadline == s.callers[s.queue[i].id].deadline
  }

  predicate DispatchKnown(s: Sys) {
    forall i :: 0 <= i < |s.dispatched| ==> s.dispatched[i] in s.callers
  }

  function DispatchNos(s: Sys): seq<int> {
    seq(|s.dispatched|, i requires 0 <= i < |s.dispatched| => No(s, s.dispatched[i]))
  }

  function QueueNos(s: Sys): seq<int> { seq(|s.queue|, i requires 0 <= i < |s.queue| => No(s, s.queue[i].id)) }

  predicate Increasing(line: seq<int>) {
    forall i, j :: 0 <= i < j < |line| ==> line[i] < line[j]
  }

  /** First come, first served: what was dispatched, and then what is queued, is in the order of admission. */
  predicate Fifo(s: Sys) {
    Increasing(DispatchNos(s) + QueueNos(s))
  }

  predicate Queued(queue: seq<Invocation>, id: string) {
    exists i :: 0 <= i < |queue| && queue[i].id == id
  }

  /** An admitted invocation is queued or was dispatched, unless its time is over; a caller that gave up did so after
      its deadline, and cleans up behind itself. */
  predicate CallerTimely(s: Sys, id: string)
    requires id in s.callers
  {
    var phase := s.callers[id].phase;
    && s.callers[id].deadline <= s.now + s.callers[id].timeout
    && (phase.Waiting? ==> s.callers[id].deadline <= phase.timer)
    && (Queued(s.queue, id) || id in s.dispatched || s.callers[id].deadline <= s.now)
    && (phase in {Forgetting, Unqueueing, TimedOut} ==> s.callers[id].deadline <= s.now)
    && (phase in {Unqueueing, TimedOut} ==> id !in s.inflight)
    && (phase == TimedOut ==> !Queued(s.queue, id))
  }

  predicate Timely(s: Sys) {
    forall id :: id in s.callers ==> CallerTimely(s, id)
  }

  // ----- results -----

  /** A response is in one place: being sent, in the channel, or with its caller. */
  predicate OneResponse(s: Sys) {
    && s.results.Keys == s.callers.Keys && s.inflight <= s.callers.Keys && s.accepted.Keys <= s.callers.Keys
    && (forall id :: id in s.accepted ==> id !in s.inflight)
    && (forall id :: id in s.results && s.results[id].Some? ==>
          id in s.accepted && s.accepted[id] == s.results[id].value && !s.callers[id].phase.Answered?)
    && (forall id :: id in s.callers && s.callers[id].phase.Answered? ==>
          id in s.accepted && s.accepted[id] == s.callers[id].phase.response)
  }

  predicate SendsOnce(s: Sys) {
    && (forall r :: r in s.responders ==>
          var id := s.responders[r].id;
          id in s.accepted && s.accepted[id] == s.responders[r].response && id in s.results && s.results[id] == None
          && id in s.callers && !s.callers[id].phase.Answered?)
    && (forall r, q :: r in s.responders && q in s.responders && s.responders[r].id == s.responders[q].id ==> r == q)
  }

  ghost predicate Inv(limit: nat, s: Sys) {
    && Ordered(s) && Timely(s) && OneResponse(s) && SendsOnce(s)
    && |s.queue| <= limit && s.refused !! s.callers.Keys
  }

  /** Removal leaves a subsequence. */
  lemma {:induction false} RemoveIndices(queue: seq<Invocation>, id: string) returns (n: nat)
    ensures n <= |queue|
    ensures forall i :: 0 <= i < n ==> queue[i].id != id
    ensures n == |queue| || queue[n].id == id
    ensures Remove(queue, id) == if n == |queue| then queue else queue[..n] + queue[n + 1..]
  {
    if queue == [] {
      n := 0;
    } else if queue[0].id == id {
      n := 0;
    } else {
      n := RemoveIndices(queue[1..], id);
      n := n + 1;
      assert queue == [queue[0]] + queue[1..];
    }
  }

  // ----- every step keeps the invariant -----

  predicate Ordered(s: Sys) { Numbered(s) && QueueKnown(s) && DispatchKnown(s) && Fifo(s) }

  /** The callers of `s` are the callers of `u`, with their numbers and deadlines. */
  predicate SameCallers(s: Sys, u: Sys) {
    && u.callers.Keys == s.callers.Keys && u.nextNo == s.nextNo
    && forall id :: id in s.callers ==>
         u.callers[id].no == s.callers[id].no && u.callers[id].deadline == s.callers[id].deadline
  }

  lemma KeepsOrder(s: Sys, u: Sys)
    requires Ordered(s) && SameCallers(s, u) && u.queue == s.queue && u.dispatched == s.dispatched
    ensures Ordered(u)
  {
    assert QueueNos(u) == QueueNos(s) && DispatchNos(u) == DispatchNos(s);
  }

  lemma AdmitOrder(s: Sys, limit: nat, id: string, deadline: int, timeout: nat)
    requires Ordered(s) && id !in s.callers
    ensures Ordered(Admit(s, limit, id, deadline, timeout))
  {
    var u := Admit(s, limit, id, deadline, timeout);
    if |s.queue| < limit {
      assert DispatchNos(u) == DispatchNos(s);
      assert QueueNos(u) == QueueNos(s) + [s.nextNo];
      assert DispatchNos(u) + QueueNos(u) == DispatchNos(s) + QueueNos(s) + [s.nextNo];
    } else {
      KeepsOrder(s, u);
    }
  }

  lemma TakeOrder(s: Sys, p: nat)
    requires Ordered(s)
    ensures Ordered(TakeHead(s, p))
  {
    var u := TakeHead(s, p);
    if s.queue == [] {
      KeepsOrder(s, u);
    } else if s.now > s.queue[0].deadline {
      assert s.queue[..0] + s.queue[0 + 1..] == s.queue[1..];
      WithoutOne(s, u, 0);
    } else {
      DispatchHead(s, u);
    }
  }

  lemma DispatchHead(s: Sys, u: Sys)
    requires Ordered(s) && s.queue != [] && SameCallers(s, u)
    requires u.queue == s.queue[1..] && u.dispatched == s.dispatched + [s.queue[0].id]
    ensures Ordered(u)
  {
    assert QueueKnown(u) && DispatchKnown(u) by {
      assert forall i :: 0 <= i < |u.queue| ==> u.queue[i] == s.queue[i + 1];
    }
    hide Numbered, QueueKnown, DispatchKnown;
    assert QueueNos(u) == QueueNos(s)[1..];
    assert DispatchNos(u) == DispatchNos(s) + [QueueNos(s)[0]];
    assert DispatchNos(u) + QueueNos(u) == DispatchNos(s) + QueueNos(s);
    SameNumbers(s, u);
  }

  lemma SameNumbers(s: Sys, u: Sys)
    requires Numbered(s) && SameCallers(s, u)
    ensures Numbered(u)
  {
  }

  /** An increasing line stays increasing when one is taken out. */
  lemma Skips(a: seq<int>, b: seq<int>, n: nat)
    requires Increasing(a + b) && n < |b|
    ensures Increasing(a + (b[..n] + b[n + 1..]))
  {
    var line, less := a + b, a + (b[..n] + b[n + 1..]);
    forall i, j | 0 <= i < j < |less| ensures less[i] < less[j] {
      assert less[i] == line[if i < |a| + n then i else i + 1];
      assert less[j] == line[if j < |a| + n then j else j + 1];
    }
  }

  lemma UnqueueOrder(s: Sys, u: Sys, id: string)
    requires Ordered(s) && SameCallers(s, u) && u.queue == Remove(s.queue, id) && u.dispatched == s.dispatched
    ensures Ordered(u)
  {
    hide Remove;
    var n := RemoveIndices(s.queue, id);
    if n < |s.queue| {
      WithoutOne(s, u, n);
    } else {
      KeepsOrder(s, u);
    }
  }

  lemma WithoutOne(s: Sys, u: Sys, n: nat)
    requires Ordered(s) && SameCallers(s, u) && u.dispatched == s.dispatched
    requires n < |s.queue| && u.queue == s.queue[..n] + s.queue[n + 1..]
    ensures Ordered(u)
  {
    assert QueueKnown(u) by {
      assert forall i :: 0 <= i < |u.queue| ==> u.queue[i] == s.queue[if i < n then i else i + 1];
    }
    hide Numbered, QueueKnown, DispatchKnown;
    assert DispatchNos(u) == DispatchNos(s);
    assert QueueNos(u) == QueueNos(s)[..n] + QueueNos(s)[n + 1..];
    Skips(DispatchNos(s), QueueNos(s), n);
    KeepsNumbers(s, u);
  }

  lemma KeepsNumbers(s: Sys, u: Sys)
    requires Numbered(s) && DispatchKnown(s) && SameCallers(s, u) && u.dispatched == s.dispatched
    ensures Numbered(u) && DispatchKnown(u)
  {
  }

  /** The steps of pollers and responders but one, and the clock. */
  predicate Elsewhere(e: Event) { !OfCaller(e) && !e.Next? }

  lemma ElsewhereQuiet(limit: nat, s: Sys, e: Event)
    requires Elsewhere(e)
    ensures var u := Step(limit, s, e);
            && u.callers == s.callers && u.queue == s.queue && u.dispatched == s.dispatched && u.nextNo == s.nextNo
            && u.inflight <= s.inflight && s.now <= u.now && u.refused == s.refused
  {
    hide CallerStep;
  }

  /** The steps of callers between their admission and removeQueuedInvocation. */
  predicate InCall(e: Event) { e.Notify? || e.Select? || e.Receive? || e.Timeout? || e.Forget? }

  lemma InCallQuiet(limit: nat, s: Sys, e: Event)
    requires InCall(e)
    ensures var u := Step(limit, s, e);
            && SameCallers(s, u) && u.queue == s.queue && u.dispatched == s.dispatched && u.now == s.now
            && u.inflight <= s.inflight && u.refused == s.refused
  {
    hide Step, Go;
    InCallGoes(limit, s, e);
    if phase :| e.id in s.callers && Step(limit, s, e).callers == Go(s, e.id, phase).callers {
      GoSame(s, e.id, phase);
    }
  }

  /** At most the caller's phase changes, its id leaves the in-flight map, its result is taken, or a token is placed. */
  lemma InCallGoes(limit: nat, s: Sys, e: Event)
    requires InCall(e)
    ensures var u := Step(limit, s, e);
            && (u.callers == s.callers
                || (e.id in s.callers && exists phase :: u.callers == Go(s, e.id, phase).callers))
            && u.nextNo == s.nextNo && u.queue == s.queue && u.dispatched == s.dispatched && u.now == s.now
            && u.inflight <= s.inflight && u.refused == s.refused
  {
    StepOfCaller(limit, s, e);
    hide Step, PollerStep, ResponderStep, Admit, Remove;
  }

  lemma GoSame(s: Sys, id: string, phase: Phase)
    requires id in s.callers
    ensures var u := Go(s, id, phase);
            && u.callers.Keys == s.callers.Keys
            && forall x :: x in s.callers ==>
                 u.callers[x].no == s.callers[x].no && u.callers[x].deadline == s.callers[x].deadline
  {
  }

  lemma StepOrder(limit: nat, s: Sys, e: Event)
    requires Ordered(s)
    ensures Ordered(Step(limit, s, e))
  {
    hide Ordered, Remove, Admit, TakeHead, ResponderStep;
    var u := Step(limit, s, e);
    if Elsewhere(e) {
      hide Step;
      ElsewhereQuiet(limit, s, e);
      KeepsOrder(s, u);
    } else if InCall(e) {
      hide Step;
      InCallQuiet(limit, s, e);
      KeepsOrder(s, u);
    } else if u != s {
      match e
      case Call(id, made, timeout) => AdmitOrder(s, limit, id, made + timeout, timeout);
      case Next(p) => TakeOrder(s, p);
      case Unqueue(id) => UnqueueOrder(s, u, id);
    }
  }

  lemma QueuedOnce(s: Sys, n: nat)
    requires Ordered(s) && n < |s.queue|
    ensures forall i :: 0 <= i < |s.queue| && s.queue[i].id == s.queue[n].id ==> i == n
  {
    var line, m := DispatchNos(s) + QueueNos(s), |s.dispatched|;
    forall i | 0 <= i < |s.queue| && s.queue[i].id == s.queue[n].id ensures i == n {
      assert line[m + i] == No(s, s.queue[i].id) && line[m + n] == No(s, s.queue[n].id);
    }
  }

  /** Removal by id takes exactly that invocation out of the queue. */
  lemma UnqueuedExactly(s: Sys, u: Sys, id: string, other: string)
    requires Ordered(s) && u.queue == Remove(s.queue, id)
    ensures Queued(u.queue, other) <==> Queued(s.queue, other) && other != id
  {
    hide Ordered, Remove;
    var n := RemoveIndices(s.queue, id);
    if n < |s.queue| {
      QueuedOnce(s, n);
      LeftOut(s.queue, u.queue, n, other);
    }
  }

  lemma LeftOut(queue: seq<Invocation>, less: seq<Invocation>, n: nat, other: string)
    requires n < |queue| && less == queue[..n] + queue[n + 1..]
    requires forall i :: 0 <= i < |queue| && queue[i].id == queue[n].id ==> i == n
    ensures Queued(less, other) <==> Queued(queue, other) && other != queue[n].id
  {
    if Queued(queue, other) && other != queue[n].id {
      var i :| 0 <= i < |queue| && queue[i].id == other;
      assert less[if i < n then i else i - 1] == queue[i];
    }
    if Queued(less, other) {
      var i :| 0 <= i < |less| && less[i].id == other;
      assert less[i] == queue[if i < n then i else i + 1];
    }
  }

  lemma HeadTaken(s: Sys, u: Sys, other: string)
    requires s.queue != [] && u.queue == s.queue[1..]
    ensures Queued(u.queue, other) ==> Queued(s.queue, other)
    ensures Queued(s.queue, other) ==> Queued(u.queue, other) || other == s.queue[0].id
  {
    if Queued(u.queue, other) {
      var i :| 0 <= i < |u.queue| && u.queue[i].id == other;
      assert s.queue[i + 1].id == other;
    }
    if Queued(s.queue, other) && other != s.queue[0].id {
      var i :| 0 <= i < |s.queue| && s.queue[i].id == other;
      assert u.queue[i - 1].id == other;
    }
  }

  lemma Appended(s: Sys, u: Sys, inv: Invocation, other: string)
    requires u.queue == s.queue + [inv]
    ensures Queued(u.queue, other) <==> Queued(s.queue, other) || other == inv.id
  {
    assert u.queue[|s.queue|] == inv;
    if Queued(s.queue, other) {
      var i :| 0 <= i < |s.queue| && s.queue[i].id == other;
      assert u.queue[i].id == other;
    }
  }

  lemma AdmitTimely(s: Sys, limit: nat, caller: string, deadline: int, timeout: nat, id: string)
    requires deadline <= s.now + timeout && caller !in s.callers && caller !in s.inflight
        && (id == caller || (id in s.callers && CallerTimely(s, id)))
    ensures id in Admit(s, limit, caller, deadline, timeout).callers
        ==> CallerTimely(Admit(s, limit, caller, deadline, timeout), id)
  {
    hide Queued;
    var u := Admit(s, limit, caller, deadline, timeout);
    if |s.queue| < limit { Appended(s, u, Invocation(caller, deadline), id); }
  }

  lemma TakeTimely(s: Sys, p: nat, id: string)
    requires QueueKnown(s) && id in s.callers && CallerTimely(s, id)
    ensures CallerTimely(TakeHead(s, p), id)
  {
    hide Queued;
    var u := TakeHead(s, p);
    if s.queue != [] {
      HeadTaken(s, u, id);
      assert id in s.dispatched ==> id in u.dispatched;
      assert s.now <= s.queue[0].deadline ==> u.dispatched[|s.dispatched|] == s.queue[0].id;
    }
  }

  lemma UnqueueTimely(limit: nat, s: Sys, x: string, id: string)
    requires Ordered(s) && Is(s, x, Unqueueing) && CallerTimely(s, x) && id in s.callers && CallerTimely(s, id)
    ensures CallerTimely(CallerStep(limit, s, Unqueue(x)), id)
  {
    hide Queued, Ordered, Remove;
    UnqueuedExactly(s, CallerStep(limit, s, Unqueue(x)), x, id);
  }

  lemma InCallTimely(limit: nat, s: Sys, e: Event, id: string)
    requires InCall(e) && id in s.callers && CallerTimely(s, id)
    ensures CallerTimely(CallerStep(limit, s, e), id)
  {
    hide Queued;
  }

  lemma QuietTimely(s: Sys, u: Sys, id: string)
    requires id in s.callers && CallerTimely(s, id) && u.callers == s.callers && u.queue == s.queue
    requires u.dispatched == s.dispatched && u.inflight <= s.inflight && s.now <= u.now
    ensures CallerTimely(u, id)
  {
  }

  lemma StepTimely(limit: nat, s: Sys, e: Event, id: string)
    requires Ordered(s) && Timely(s) && s.inflight <= s.callers.Keys && id in Step(limit, s, e).callers
    ensures CallerTimely(Step(limit, s, e), id)
  {
    hide Ordered, CallerTimely, TakeHead, Admit;
    if Elsewhere(e) {
      hide Step;
      ElsewhereQuiet(limit, s, e);
      QuietTimely(s, Step(limit, s, e), id);
    } else if InCall(e) {
      hide CallerStep;
      InCallQuiet(limit, s, e);
      InCallTimely(limit, s, e, id);
    } else if Step(limit, s, e) != s {
      match e
      case Call(caller, made, timeout) =>
        AdmitCallers(s, limit, caller, made + timeout, timeout);
        AdmitTimely(s, limit, caller, made + timeout, timeout, id);
      case Next(p) => NextKeepsCallers(s, p); KnownQueue(s); TakeTimely(s, p, id);
      case Unqueue(x) => UnqueueTimely(limit, s, x, id);
    }
  }

  lemma AdmitCallers(s: Sys, limit: nat, caller: string, deadline: int, timeout: nat)
    ensures Admit(s, limit, caller, deadline, timeout).callers.Keys <= s.callers.Keys + {caller}
  {
  }

  lemma NextKeepsCallers(s: Sys, p: nat)
    ensures TakeHead(s, p).callers == s.callers
  {
  }

  lemma KnownQueue(s: Sys)
    requires Ordered(s)
    ensures QueueKnown(s)
  {
  }

  /** Nobody sends or receives a response. */
  lemma SameResponses(s: Sys, u: Sys)
    requires OneResponse(s) && SendsOnce(s)
    requires u.results == s.results && u.accepted == s.accepted && u.responders == s.responders
        && u.inflight <= s.inflight
    requires u.callers.Keys == s.callers.Keys
    requires forall id | id in s.callers ::
               u.callers[id].phase == s.callers[id].phase
                 || !(u.callers[id].phase.Answered? || s.callers[id].phase.Answered?)
    ensures OneResponse(u) && SendsOnce(u)
  {
  }

  lemma AdmitResponses(s: Sys, limit: nat, id: string, deadline: int, timeout: nat)
    requires OneResponse(s) && SendsOnce(s) && id !in s.callers
    ensures OneResponse(Admit(s, limit, id, deadline, timeout)) && SendsOnce(Admit(s, limit, id, deadline, timeout))
  {
    hide SendsOnce;
    AdmitSends(s, limit, id, deadline, timeout);
    Unaccepted(s, id);
  }

  lemma AdmitSends(s: Sys, limit: nat, id: string, deadline: int, timeout: nat)
    requires OneResponse(s) && SendsOnce(s) && id !in s.callers
    ensures SendsOnce(Admit(s, limit, id, deadline, timeout))
  {
    hide OneResponse;
    assert id !in s.accepted by { Unaccepted(s, id); }
  }

  lemma Unaccepted(s: Sys, id: string)
    requires OneResponse(s) && id !in s.callers
    ensures id !in s.accepted
  {
  }

  lemma ReceiveResponses(limit: nat, s: Sys, id: string)
    requires OneResponse(s) && SendsOnce(s)
    ensures OneResponse(CallerStep(limit, s, Receive(id))) && SendsOnce(CallerStep(limit, s, Receive(id)))
  {
  }

  lemma RespondResponses(s: Sys, e: Event)
    requires OneResponse(s) && SendsOnce(s) && OfResponder(e)
    ensures OneResponse(ResponderStep(s, e)) && SendsOnce(ResponderStep(s, e))
  {
  }

  lemma PollerResponses(s: Sys, e: Event)
    requires OneResponse(s) && SendsOnce(s) && OfPoller(e)
    ensures OneResponse(PollerStep(s, e)) && SendsOnce(PollerStep(s, e))
  {
    hide OneResponse, SendsOnce;
    SameResponses(s, PollerStep(s, e));
  }

  lemma GoResponses(s: Sys, u: Sys, id: string, phase: Phase)
    requires OneResponse(s) && SendsOnce(s) && id in s.callers && !s.callers[id].phase.Answered? && !phase.Answered?
    requires u.callers == s.callers[id := s.callers[id].(phase := phase)] && u.inflight <= s.inflight
    requires u.results == s.results && u.accepted == s.accepted && u.responders == s.responders
    ensures OneResponse(u) && SendsOnce(u)
  {
    hide OneResponse, SendsOnce;
    SameResponses(s, u);
  }

  lemma OtherResponses(limit: nat, s: Sys, e: Event)
    requires OneResponse(s) && SendsOnce(s) && (InCall(e) || e.Unqueue?) && !e.Receive?
    ensures OneResponse(CallerStep(limit, s, e)) && SendsOnce(CallerStep(limit, s, e))
  {
    hide OneResponse, SendsOnce, Remove, Admit;
    var u := CallerStep(limit, s, e);
    if u != s {
      match e
      case Notify(id) => GoResponses(s, u, id, Announced);
      case Select(id) => GoResponses(s, u, id, u.callers[id].phase);
      case Timeout(id) => GoResponses(s, u, id, Forgetting);
      case Forget(id) => GoResponses(s, u, id, Unqueueing);
      case Unqueue(id) => GoResponses(s, u, id, TimedOut);
    }
  }

  lemma StepResponses(limit: nat, s: Sys, e: Event)
    requires OneResponse(s) && SendsOnce(s)
    ensures OneResponse(Step(limit, s, e)) && SendsOnce(Step(limit, s, e))
  {
    hide OneResponse, SendsOnce, Remove, PollerStep, ResponderStep, Admit;
    if OfPoller(e) {
      PollerResponses(s, e);
    } else if OfResponder(e) {
      RespondResponses(s, e);
    } else if e.Receive? {
      ReceiveResponses(limit, s, e.id);
    } else if e.Call? {
      if e.id !in s.callers { AdmitResponses(s, limit, e.id, e.made + e.timeout, e.timeout); }
    } else if e.Tick? {
      SameResponses(s, Step(limit, s, e));
    } else {
      hide CallerStep;
      OtherResponses(limit, s, e);
    }
  }

  lemma StepBounds(limit: nat, s: Sys, e: Event)
    requires |s.queue| <= limit && s.refused !! s.callers.Keys
    ensures var u := Step(limit, s, e); |u.queue| <= limit && u.refused !! u.callers.Keys
  {
    hide Remove;
    if Elsewhere(e) {
      hide Step;
      ElsewhereQuiet(limit, s, e);
    } else if InCall(e) {
      hide Step;
      InCallQuiet(limit, s, e);
    } else if e.Unqueue? {
      RemoveShrinks(s.queue, e.id);
    }
  }

  lemma RemoveShrinks(queue: seq<Invocation>, id: string)
    ensures |Remove(queue, id)| <= |queue|
  {
  }

  lemma StepInv(limit: nat, s: Sys, e: Event)
    requires Inv(limit, s)
    ensures Inv(limit, Step(limit, s, e))
  {
    hide Step, Ordered, CallerTimely, OneResponse, SendsOnce, Queued;
    StepOrder(limit, s, e);
    StepResponses(limit, s, e);
    StepBounds(limit, s, e);
    InflightKnown(s);
    var u := Step(limit, s, e);
    forall id | id in u.callers ensures CallerTimely(u, id) {
      StepTimely(limit, s, e, id);
    }
  }

  lemma InflightKnown(s: Sys)
    requires OneResponse(s)
    ensures s.inflight <= s.callers.Keys
  {
  }

  lemma {:induction false} RunInv(limit: nat, s: Sys, events: seq<Event>)
    requires Inv(limit, s)
    ensures Inv(limit, Run(limit, s, events))
    decreases |events|
  {
    if events != [] {
      StepInv(limit, s, events[0]);
      RunInv(limit, Step(limit, s, events[0]), events[1..]);
    }
  }

  lemma Reachable(limit: nat, events: seq<Event>)
    ensures Inv(limit, Run(limit, INIT, events))
  {
    assert DispatchNos(INIT) + QueueNos(INIT) == [];
    RunInv(limit, INIT, events);
  }

  // ----- what a run guarantees -----

  lemma QueueWithinLimit(limit: nat, events: seq<Event>)
    ensures |Run(limit, INIT, events).queue| <= limit
  {
    Reachable(limit, events);
  }

  /** Dispatch follows admission, and no id is dispatched twice. */
  lemma DispatchInOrder(limit: nat, events: seq<Event>, i: nat, j: nat)
    requires i < j < |Run(limit, INIT, events).dispatched|
    ensures var s := Run(limit, INIT, events);
            && s.dispatched[i] in s.callers && s.dispatched[j] in s.callers && s.dispatched[i] != s.dispatched[j]
            && s.callers[s.dispatched[i]].no < s.callers[s.dispatched[j]].no
  {
    Reachable(limit, events);
    var s := Run(limit, INIT, events);
    var line := DispatchNos(s) + QueueNos(s);
    assert line[i] == No(s, s.dispatched[i]) && line[j] == No(s, s.dispatched[j]);
  }

  lemma AheadOfQueue(s: Sys, j: nat, i: nat)
    requires Ordered(s) && j < |s.dispatched| && i < |s.queue|
    ensures No(s, s.dispatched[j]) < No(s, s.queue[i].id)
  {
    var line := DispatchNos(s) + QueueNos(s);
    assert line[j] == No(s, s.dispatched[j]) && line[|s.dispatched| + i] == No(s, s.queue[i].id);
  }

  /** Nobody is overtaken: an invocation admitted before a dispatched one was dispatched too, unless its deadline has
      come, and then it is not queued any more. */
  lemma NobodyOvertaken(limit: nat, events: seq<Event>, earlier: string, later: string)
    requires var s := Run(limit, INIT, events);
             earlier in s.callers && later in s.callers && later in s.dispatched
               && s.callers[earlier].no < s.callers[later].no
    ensures var s := Run(limit, INIT, events);
            earlier in s.dispatched || (s.callers[earlier].deadline <= s.now && !Queued(s.queue, earlier))
  {
    Reachable(limit, events);
    var s := Run(limit, INIT, events);
    assert CallerTimely(s, earlier);
    if Queued(s.queue, earlier) {
      var i :| 0 <= i < |s.queue| && s.queue[i].id == earlier;
      var j :| 0 <= j < |s.dispatched| && s.dispatched[j] == later;
      AheadOfQueue(s, j, i);
    }
  }

  /** A caller that got 200 got the one response that was accepted for its own id. */
  lemma ResponseIsOwn(limit: nat, events: seq<Event>, id: string)
    requires var s := Run(limit, INIT, events); id in s.callers && s.callers[id].phase.Answered?
    ensures var s := Run(limit, INIT, events); id in s.accepted && s.accepted[id] == s.callers[id].phase.response
  {
    Reachable(limit, events);
  }

  /** At most one response is accepted for an id: a later one changes nothing. */
  lemma AcceptedOnce(limit: nat, events: seq<Event>, r: nat, id: string, response: Response)
    requires id in Run(limit, INIT, events).accepted
    ensures var s := Run(limit, INIT, events); Step(limit, s, Respond(r, id, response)) == s
  {
    Reachable(limit, events);
  }

  lemma {:induction false} AcceptedIsFinal(limit: nat, s: Sys, events: seq<Event>, id: string)
    requires Inv(limit, s) && id in s.accepted
    ensures id in Run(limit, s, events).accepted && Run(limit, s, events).accepted[id] == s.accepted[id]
    decreases |events|
  {
    if events != [] {
      StepInv(limit, s, events[0]);
      AcceptedStays(limit, s, events[0], id);
      AcceptedIsFinal(limit, Step(limit, s, events[0]), events[1..], id);
    }
  }

  lemma AcceptedStays(limit: nat, s: Sys, e: Event, id: string)
    requires id in s.accepted && id !in s.inflight
    ensures id in Step(limit, s, e).accepted && Step(limit, s, e).accepted[id] == s.accepted[id]
  {
    hide Remove;
  }

  /** The send of an accepted response finds room in the channel. */
  lemma SendNeverBlocks(limit: nat, events: seq<Event>, r: nat)
    requires r in Run(limit, INIT, events).responders
    ensures var s := Run(limit, INIT, events); var u := Step(limit, s, Send(r));
            && s.results.Keys == s.callers.Keys && r !in u.responders
            && s.responders[r].id in u.results && u.results[s.responders[r].id] == Some(s.responders[r].response)
  {
    Reachable(limit, events);
  }

  // ----- every admitted caller ends, in one of two ways -----

  predicate Finished(phase: Phase) { phase == TimedOut || phase.Answered? }

  lemma {:induction false} OutcomeIsFinal(limit: nat, s: Sys, events: seq<Event>, id: string)
    requires id in s.callers && Finished(s.callers[id].phase)
    ensures id in Run(limit, s, events).callers && Run(limit, s, events).callers[id] == s.callers[id]
    decreases |events|
  {
    if events != [] {
      FinishedStays(limit, s, events[0], id);
      OutcomeIsFinal(limit, Step(limit, s, events[0]), events[1..], id);
    }
  }

  lemma FinishedStays(limit: nat, s: Sys, e: Event, id: string)
    requires id in s.callers && Finished(s.callers[id].phase)
    ensures id in Step(limit, s, e).callers && Step(limit, s, e).callers[id] == s.callers[id]
  {
    hide CallerStep, PollerStep, ResponderStep;
    if OfCaller(e) {
      OneCallerMoves(limit, s, e, id);
    } else {
      NotOfCaller(limit, s, e);
    }
  }

  /** A step of a caller moves that caller alone, and forwards. */
  lemma OneCallerMoves(limit: nat, s: Sys, e: Event, id: string)
    requires OfCaller(e) && id in s.callers
    ensures var u := CallerStep(limit, s, e);
            && id in u.callers && u.callers[id].deadline == s.callers[id].deadline && u.now == s.now
            && (u.callers[id] == s.callers[id]
                || (!Finished(s.callers[id].phase) && Left(u.callers[id].phase) < Left(s.callers[id].phase)))
  {
    hide CallerStep;
    if e.id == id { OwnMove(limit, s, e); } else { OthersStay(limit, s, e, id); }
  }

  lemma OthersStay(limit: nat, s: Sys, e: Event, id: string)
    requires OfCaller(e) && id in s.callers && e.id != id
    ensures var u := CallerStep(limit, s, e); id in u.callers && u.callers[id] == s.callers[id] && u.now == s.now
  {
    hide Remove, Admit;
    if e.Call? { AdmitKeeps(s, limit, e.id, e.made + e.timeout, e.timeout, id); }
  }

  lemma AdmitKeeps(s: Sys, limit: nat, id: string, deadline: int, timeout: nat, other: string)
    requires other in s.callers && other != id
    ensures var u := Admit(s, limit, id, deadline, timeout);
            other in u.callers && u.callers[other] == s.callers[other] && u.now == s.now
  {
  }

  lemma OwnMove(limit: nat, s: Sys, e: Event)
    requires OfCaller(e) && e.id in s.callers
    ensures var u := CallerStep(limit, s, e);
            u == s || (e.id in u.callers && u.callers[e.id].deadline == s.callers[e.id].deadline && u.now == s.now
                       && !Finished(s.callers[e.id].phase) && Left(u.callers[e.id].phase) < Left(s.callers[e.id].phase))
  {
    hide Remove, Admit;
  }

  lemma NotOfCaller(limit: nat, s: Sys, e: Event)
    requires !OfCaller(e)
    ensures Step(limit, s, e).callers == s.callers && s.now <= Step(limit, s, e).now
  {
    hide CallerStep;
  }

  /** How many own steps a caller has left at most. */
  function Left(phase: Phase): nat {
    match phase
    case Notifying => 5
    case Announced => 4
    case Waiting(_) => 3
    case Forgetting => 2
    case Unqueueing => 1
    case _ => 0
  }

  /** The step that is open to a caller, in its select once the timer has run out. */
  function OwnStep(id: string, phase: Phase): Event {
    match phase
    case Notifying => Notify(id)
    case Announced => Select(id)
    case Waiting(_) => Timeout(id)
    case Forgetting => Forget(id)
    case _ => Unqueue(id)
  }

  lemma NeverStuck(limit: nat, s: Sys, id: string)
    requires id in s.callers && !Finished(s.callers[id].phase)
    requires Waits(s, id) ==> s.now >= s.callers[id].phase.timer
    ensures var u := Step(limit, s, OwnStep(id, s.callers[id].phase));
            id in u.callers && Left(u.callers[id].phase) < Left(s.callers[id].phase)
  {
    hide PollerStep, ResponderStep, Remove, Admit, Step;
    StepOfCaller(limit, s, OwnStep(id, s.callers[id].phase));
  }

  lemma StepOfCaller(limit: nat, s: Sys, e: Event)
    requires OfCaller(e)
    ensures Step(limit, s, e) == CallerStep(limit, s, e)
  {
  }

  /** The caller's timer has not started or not run out. */
  predicate BeforeTimer(s: Sys, id: string)
    requires id in s.callers
  {
    match s.callers[id].phase
    case Notifying => true
    case Announced => true
    case Waiting(timer) => s.now < timer
    case _ => false
  }

  /** From every state an admitted caller can be brought to its end by the clock and at most five steps of its own, and
      whatever follows, it keeps that end. */
  lemma {:induction false} CallerEnds(limit: nat, s: Sys, id: string) returns (events: seq<Event>)
    requires id in s.callers
    ensures |events| <= Left(s.callers[id].phase) + if BeforeTimer(s, id) then 1 else 0
    ensures var u := Run(limit, s, events); id in u.callers && Finished(u.callers[id].phase)
    ensures forall more :: var u := Run(limit, s, events); var v := Run(limit, u, more);
                           id in v.callers && v.callers[id] == u.callers[id]
    decreases Left(s.callers[id].phase), Waits(s, id) && s.now < s.callers[id].phase.timer
  {
    hide Step;
    if Finished(s.callers[id].phase) {
      events := [];
      forall more ensures var v := Run(limit, s, more); id in v.callers && v.callers[id] == s.callers[id] {
        OutcomeIsFinal(limit, s, more, id);
      }
    } else {
      var e := OwnStep(id, s.callers[id].phase);
      if Waits(s, id) && s.now < s.callers[id].phase.timer {
        e := Tick(s.callers[id].phase.timer);
        TickOnly(limit, s, e.now);
      } else {
        NeverStuck(limit, s, id);
      }
      var rest := CallerEnds(limit, Step(limit, s, e), id);
      events := [e] + rest;
      assert events[1..] == rest;
      assert Run(limit, s, events) == Run(limit, Step(limit, s, e), rest);
    }
  }

  lemma TickOnly(limit: nat, s: Sys, now: int)
    requires s.now < now
    ensures Step(limit, s, Tick(now)) == s.(now := now)
  {
  }

  /** A step of the caller itself that changes something. */
  predicate Moves(limit: nat, s: Sys, e: Event, id: string) {
    OfCaller(e) && e.id == id && Step(limit, s, e) != s
  }

  function MovesIn(limit: nat, s: Sys, events: seq<Event>, id: string): nat
    decreases |events|
  {
    if events == [] then 0
    else
      var rest := MovesIn(limit, Step(limit, s, events[0]), events[1..], id);
      rest + if Moves(limit, s, events[0], id) then 1 else 0
  }

  /** Whatever else happens in between: after as many moves of its own as it has left, five at most, a caller has ended,
      and it makes no more. */
  lemma FiveMovesEnd(limit: nat, s: Sys, events: seq<Event>, id: string)
    requires id in s.callers
    ensures var u := Run(limit, s, events); var moves := MovesIn(limit, s, events, id);
            && id in u.callers && moves <= Left(s.callers[id].phase) <= 5
            && (moves == Left(s.callers[id].phase) ==> Finished(u.callers[id].phase))
  {
    NothingLeft(s.callers[id].phase);
    RunLeft(limit, s, events, id);
    NothingLeft(Run(limit, s, events).callers[id].phase);
  }

  lemma {:induction false} RunLeft(limit: nat, s: Sys, events: seq<Event>, id: string)
    requires id in s.callers
    ensures var u := Run(limit, s, events);
            id in u.callers && Left(u.callers[id].phase) + MovesIn(limit, s, events, id) <= Left(s.callers[id].phase)
    decreases |events|
  {
    if events != [] {
      hide Step, Moves;
      LeftNeverGrows(limit, s, events[0], id);
      if Moves(limit, s, events[0], id) { MoveIsNearer(limit, s, events[0], id); }
      RunLeft(limit, Step(limit, s, events[0]), events[1..], id);
    }
  }

  lemma MoveIsNearer(limit: nat, s: Sys, e: Event, id: string)
    requires id in s.callers && Moves(limit, s, e, id)
    ensures var u := Step(limit, s, e); id in u.callers && Left(u.callers[id].phase) < Left(s.callers[id].phase)
  {
    hide CallerStep, PollerStep, ResponderStep, Step;
    StepOfCaller(limit, s, e);
    OwnMove(limit, s, e);
  }

  lemma NothingLeft(phase: Phase)
    ensures Left(phase) == 0 <==> Finished(phase)
    ensures Left(phase) <= 5
  {
  }

  /** No step takes a caller further from its end. */
  lemma LeftNeverGrows(limit: nat, s: Sys, e: Event, id: string)
    requires id in s.callers
    ensures var u := Step(limit, s, e);
            && id in u.callers && Left(u.callers[id].phase) <= Left(s.callers[id].phase)
            && u.callers[id].deadline == s.callers[id].deadline && s.now <= u.now
  {
    hide CallerStep, PollerStep, ResponderStep;
    if OfCaller(e) {
      OneCallerMoves(limit, s, e, id);
    } else {
      NotOfCaller(limit, s, e);
    }
  }

  // ----- if only dispatched ids are answered -----

  predicate HonestEvent(s: Sys, e: Event) { e.Respond? ==> e.id in s.dispatched }

  predicate HonestRun(limit: nat, s: Sys, events: seq<Event>)
    decreases |events|
  {
    events == [] || (HonestEvent(s, events[0]) && HonestRun(limit, Step(limit, s, events[0]), events[1..]))
  }

  predicate Honest(s: Sys) { forall id :: id in s.accepted ==> id in s.dispatched }

  lemma StepHonest(limit: nat, s: Sys, e: Event)
    requires Honest(s) && HonestEvent(s, e)
    ensures Honest(Step(limit, s, e))
  {
    hide Remove;
  }

  lemma {:induction false} RunHonest(limit: nat, s: Sys, events: seq<Event>)
    requires Honest(s) && HonestRun(limit, s, events)
    ensures Honest(Run(limit, s, events))
    decreases |events|
  {
    if events != [] {
      StepHonest(limit, s, events[0]);
      RunHonest(limit, Step(limit, s, events[0]), events[1..]);
    }
  }

  lemma DispatchedNotQueued(s: Sys, id: string)
    requires Ordered(s) && id in s.dispatched
    ensures !Queued(s.queue, id)
  {
    if Queued(s.queue, id) {
      var i :| 0 <= i < |s.queue| && s.queue[i].id == id;
      var j :| 0 <= j < |s.dispatched| && s.dispatched[j] == id;
      AheadOfQueue(s, j, i);
    }
  }

  /** A finished id is in neither the queue nor the in-flight map. */
  lemma FinishedIsGone(limit: nat, events: seq<Event>, id: string)
    requires HonestRun(limit, INIT, events)
    requires var s := Run(limit, INIT, events); id in s.callers && Finished(s.callers[id].phase)
    ensures var s := Run(limit, INIT, events); !Queued(s.queue, id) && id !in s.inflight
  {
    Reachable(limit, events);
    RunHonest(limit, INIT, events);
    var s := Run(limit, INIT, events);
    assert CallerTimely(s, id);
    if s.callers[id].phase.Answered? { DispatchedNotQueued(s, id); }
  }

  // ----- no lost wakeup -----

  predicate Active(s: Sys, p: nat) {
    p in s.pollers && !s.pollers[p].Took? && !s.pollers[p].Gone?
  }

  ghost predicate OnePoller(s: Sys) {
    forall p, q :: Active(s, p) && Active(s, q) ==> p == q
  }

  ghost predicate OnePollerRun(limit: nat, s: Sys, events: seq<Event>)
    decreases |events|
  {
    OnePoller(s) && (events == [] || OnePollerRun(limit, Step(limit, s, events[0]), events[1..]))
  }

  /** Some caller has queued its invocation and is about to send to notify. */
  predicate AboutToNotify(s: Sys) {
    exists id :: id in s.callers && s.callers[id].phase == Notifying
  }

  ghost predicate Awake(s: Sys) {
    (exists p :: Doing(s, p, Sleeping)) && s.queue != [] ==> s.token || AboutToNotify(s)
  }

  lemma CallerAside(limit: nat, s: Sys, e: Event)
    requires OfCaller(e)
    ensures var u := CallerStep(limit, s, e);
            && u.pollers == s.pollers && (s.token ==> u.token) && (u.queue != [] ==> s.queue != [] || AboutToNotify(u))
  {
    var u := CallerStep(limit, s, e);
    if e.Call? && u.queue != s.queue {
      assert u.callers[e.id].phase == Notifying;
    } else if e.Unqueue? {
      RemoveShrinks(s.queue, e.id);
    }
  }

  lemma NextAside(s: Sys, q: nat, p: nat)
    requires OnePoller(s) && Doing(PollerStep(s, Next(q)), p, Sleeping) && PollerStep(s, Next(q)).queue != []
    ensures Doing(s, p, Sleeping) && s.queue != [] && PollerStep(s, Next(q)).token == s.token
  {
    hide OnePoller;
  }

  /** A poller goes to sleep only on an empty queue, and the one that is woken is the only one. */
  lemma PollerAside(s: Sys, e: Event, p: nat)
    requires OfPoller(e) && OnePoller(s) && Doing(PollerStep(s, e), p, Sleeping) && PollerStep(s, e).queue != []
    ensures Doing(s, p, Sleeping) && s.queue != [] && (s.token ==> PollerStep(s, e).token)
  {
    hide OnePoller, TakeHead;
    if e.Next? {
      hide PollerStep;
      NextAside(s, e.p, p);
    } else if e.Wake? && Doing(s, p, Sleeping) && Doing(s, e.p, Sleeping) {
      SameSleeper(s, p, e.p);
    }
  }

  /** A poller sleeps already before the step, and the queue was not empty, unless this step is an admission. */
  lemma SleptBefore(limit: nat, s: Sys, e: Event, p: nat)
    requires OnePoller(s) && Doing(Step(limit, s, e), p, Sleeping) && Step(limit, s, e).queue != []
    ensures (Doing(s, p, Sleeping) && s.queue != []) || AboutToNotify(Step(limit, s, e))
    ensures Doing(s, p, Sleeping) && s.token ==> Step(limit, s, e).token
  {
    hide CallerStep, PollerStep, ResponderStep, OnePoller, AboutToNotify;
    if OfCaller(e) {
      CallerAside(limit, s, e);
    } else if OfPoller(e) {
      PollerAside(s, e, p);
    } else if OfResponder(e) {
      RespondersAside(s, e);
    }
  }

  lemma SameSleeper(s: Sys, p: nat, q: nat)
    requires OnePoller(s) && Doing(s, p, Sleeping) && Doing(s, q, Sleeping)
    ensures p == q
  {
    assert Active(s, p) && Active(s, q);
  }

  lemma RespondersAside(s: Sys, e: Event)
    requires OfResponder(e)
    ensures var u := ResponderStep(s, e); u.pollers == s.pollers && u.queue == s.queue && u.token == s.token
  {
  }

  lemma StepAwake(limit: nat, s: Sys, e: Event)
    requires Awake(s) && OnePoller(s)
    ensures Awake(Step(limit, s, e))
  {
    hide Step, OnePoller;
    var u := Step(limit, s, e);
    if p :| Doing(u, p, Sleeping) {
      if u.queue != [] {
        SleptBefore(limit, s, e, p);
        if !AboutToNotify(u) && !u.token { StillAbout(limit, s, e); }
      }
    }
  }

  lemma AnnouncesOwn(limit: nat, s: Sys, e: Event)
    requires OfCaller(e) && Is(s, e.id, Notifying)
    ensures CallerStep(limit, s, e) == s || CallerStep(limit, s, e).token
  {
    hide Remove, Admit;
  }

  lemma StillAbout(limit: nat, s: Sys, e: Event)
    requires AboutToNotify(s)
    ensures AboutToNotify(Step(limit, s, e)) || Step(limit, s, e).token
  {
    hide Remove;
    var id :| id in s.callers && s.callers[id].phase == Notifying;
    hide CallerStep, PollerStep, ResponderStep;
    var u := Step(limit, s, e);
    if OfCaller(e) {
      if e.id == id { AnnouncesOwn(limit, s, e); } else { OthersStay(limit, s, e, id); }
    } else {
      NotOfCaller(limit, s, e);
    }
    assert id in u.callers && (u.callers[id].phase == Notifying || u.token);
  }

  lemma {:induction false} RunAwake(limit: nat, s: Sys, events: seq<Event>)
    requires Awake(s) && OnePollerRun(limit, s, events)
    ensures Awake(Run(limit, s, events))
    decreases |events|
  {
    if events != [] {
      StepAwake(limit, s, events[0]);
      RunAwake(limit, Step(limit, s, events[0]), events[1..]);
    }
  }

  /** With one poller at a time: whenever it sleeps and the queue is not empty, a token is in the notify channel or a
      caller is about to put one there. */
  lemma NoLostWakeup(limit: nat, events: seq<Event>, p: nat)
    requires OnePollerRun(limit, INIT, events)
    requires var s := Run(limit, INIT, events); Doing(s, p, Sleeping) && s.queue != []
    ensures var s := Run(limit, INIT, events); s.token || AboutToNotify(s)
  {
    RunAwake(limit, INIT, events);
  }

  /** Two pollers asleep and two callers: the second send to notify finds the slot full, one poller takes the token and
      one invocation, and the other sleeps on beside a queued invocation. */
  lemma TwoPollersMissAWakeup(limit: nat, a: string, b: string)
    requires limit >= 2 && a != b
    ensures var s := Run(limit, INIT, MissedWakeup(a, b));
            && s.queue == [Invocation(b, 30)] && s.pollers == map[0 := Took(a), 1 := Sleeping]
            && !s.token && !AboutToNotify(s)
  {
    hide Run, Step;
    Asleep(limit);
    var s4 := INIT.(pollers := map[0 := Sleeping, 1 := Sleeping]);
    var s8 := BothCalled(a, b);
    Calls(limit, s4, a, b);
    Wakes(limit, s8, a, b);
    var polls := [Poll(0), Poll(1), Next(0), Next(1)];
    var calls := [Call(a, 0, 30), Call(b, 0, 30), Notify(a), Notify(b)];
    RunTogether(limit, INIT, polls, calls);
    RunTogether(limit, INIT, polls + calls, [Wake(0), Next(0)]);
    assert polls + calls + [Wake(0), Next(0)] == MissedWakeup(a, b);
  }

  /** Both invocations queued and announced while both pollers sleep. */
  function BothCalled(a: string, b: string): Sys {
    INIT.(pollers := map[0 := Sleeping, 1 := Sleeping], queue := [Invocation(a, 30), Invocation(b, 30)],
      inflight := {a, b}, results := map[a := None, b := None], token := true,
      callers := map[a := Caller(30, 30, 0, Announced), b := Caller(30, 30, 1, Announced)], nextNo := 2)
  }

  lemma {:induction false} RunTogether(limit: nat, s: Sys, a: seq<Event>, b: seq<Event>)
    ensures Run(limit, s, a + b) == Run(limit, Run(limit, s, a), b)
    decreases |a|
  {
    hide Step;
    if a == [] {
      assert a + b == b;
    } else {
      assert (a + b)[1..] == a[1..] + b;
      RunTogether(limit, Step(limit, s, a[0]), a[1..], b);
    }
  }

  lemma RunOne(limit: nat, s: Sys, e: Event)
    ensures Run(limit, s, [e]) == Step(limit, s, e)
  {
    hide Step;
    assert Run(limit, s, [e]) == Run(limit, Step(limit, s, e), [e][1..]);
  }

  lemma RunPair(limit: nat, s: Sys, e: Event, f: Event)
    ensures Run(limit, s, [e, f]) == Step(limit, Step(limit, s, e), f)
  {
    hide Step;
    RunTogether(limit, s, [e], [f]);
    RunOne(limit, s, e);
    RunOne(limit, Step(limit, s, e), f);
    assert [e] + [f] == [e, f];
  }

  lemma Asleep(limit: nat)
    ensures Run(limit, INIT, [Poll(0), Poll(1), Next(0), Next(1)])
        == INIT.(pollers := map[0 := Sleeping, 1 := Sleeping])
  {
    RunTogether(limit, INIT, [Poll(0), Poll(1)], [Next(0), Next(1)]);
    assert [Poll(0), Poll(1)] + [Next(0), Next(1)] == [Poll(0), Poll(1), Next(0), Next(1)];
    RunPair(limit, INIT, Poll(0), Poll(1));
    var s := INIT.(pollers := map[0 := Looping, 1 := Looping]);
    RunPair(limit, s, Next(0), Next(1));
  }

  lemma BothAnnounced(limit: nat, s: Sys, a: string, b: string)
    requires a != b && s == BothCalled(a, b).(token := false, callers := map[a := Caller(30, 30, 0, Notifying),
                                                                             b := Caller(30, 30, 1, Notifying)])
    ensures Step(limit, Step(limit, s, Notify(a)), Notify(b)) == BothCalled(a, b)
  {
  }

  lemma Calls(limit: nat, s: Sys, a: string, b: string)
    requires limit >= 2 && a != b && s == INIT.(pollers := map[0 := Sleeping, 1 := Sleeping])
    ensures Run(limit, s, [Call(a, 0, 30), Call(b, 0, 30), Notify(a), Notify(b)]) == BothCalled(a, b)
  {
    hide PollerStep, ResponderStep, Run, Remove;
    RunTogether(limit, s, [Call(a, 0, 30), Call(b, 0, 30)], [Notify(a), Notify(b)]);
    assert [Call(a, 0, 30), Call(b, 0, 30)] + [Notify(a), Notify(b)]
        == [Call(a, 0, 30), Call(b, 0, 30), Notify(a), Notify(b)];
    RunPair(limit, s, Call(a, 0, 30), Call(b, 0, 30));
    var u := Step(limit, Step(limit, s, Call(a, 0, 30)), Call(b, 0, 30));
    assert u.queue == [Invocation(a, 30), Invocation(b, 30)];
    RunPair(limit, u, Notify(a), Notify(b));
    BothAnnounced(limit, u, a, b);
  }

  lemma Wakes(limit: nat, s: Sys, a: string, b: string)
    requires a != b && s == BothCalled(a, b)
    ensures var u := Run(limit, s, [Wake(0), Next(0)]);
            && u.queue == [Invocation(b, 30)] && u.pollers == map[0 := Took(a), 1 := Sleeping]
            && !u.token && !AboutToNotify(u)
  {
    RunPair(limit, s, Wake(0), Next(0));
  }

  // ----- exactly when no invocation is forgotten -----

  function Actives(s: Sys): set<nat> {
    set p | p in s.pollers && Active(s, p)
  }

  /** Some poller is about to look at the queue. */
  predicate SomeoneLooks(s: Sys) {
    exists p :: p in s.pollers && (s.pollers[p].Looping? || s.pollers[p].Discarding?)
  }

  /** Beside a sleeper and a nonempty queue there is a token, a caller about to notify, or a poller about to look. */
  ghost predicate Attended(s: Sys) {
    (exists p :: Doing(s, p, Sleeping)) && s.queue != [] ==> s.token || AboutToNotify(s) || SomeoneLooks(s)
  }

  /** At most `k` pollers are in handleNext at any time. */
  ghost predicate AtMostRun(limit: nat, k: nat, s: Sys, events: seq<Event>)
    decreases |events|
  {
    |Actives(s)| <= k && (events == [] || AtMostRun(limit, k, Step(limit, s, events[0]), events[1..]))
  }

  /** A poller that leaves the queue nonempty saw two invocations, and no other poller slept. */
  lemma PollerAttends(s: Sys, e: Event, p: nat)
    requires OfPoller(e) && (|s.queue| <= 1 || OnePoller(s))
    requires Doing(PollerStep(s, e), p, Sleeping) && PollerStep(s, e).queue != []
    ensures var u := PollerStep(s, e);
            SomeoneLooks(u) || (Doing(s, p, Sleeping) && s.queue != [] && u.token == s.token && u.callers == s.callers
                                && (SomeoneLooks(s) ==> SomeoneLooks(u)))
  {
    var u := PollerStep(s, e);
    match e
    case GiveUp(q) => if SomeoneLooks(s) { LookerStays(s, u, q); }
    case Next(q) => NextAttends(s, q, p);
    case Poll(q) => NowLooks(s, u, q);
    case Discard(q) => NowLooks(s, u, q);
    case Wake(q) => NowLooks(s, u, q);
  }

  lemma NowLooks(s: Sys, u: Sys, q: nat)
    requires u == s || u.pollers == s.pollers[q := Looping]
    ensures u == s || SomeoneLooks(u)
  {
    assert u == s || (q in u.pollers && u.pollers[q].Looping?);
  }

  lemma LookerStays(s: Sys, u: Sys, q: nat)
    requires SomeoneLooks(s) && (u == s || (u.pollers == s.pollers[q := Gone] && Doing(s, q, Sleeping)))
    ensures SomeoneLooks(u)
  {
    var r :| r in s.pollers && (s.pollers[r].Looping? || s.pollers[r].Discarding?);
    assert u.pollers[r] == s.pollers[r];
  }

  lemma NextAttends(s: Sys, q: nat, p: nat)
    requires |s.queue| <= 1 || OnePoller(s)
    requires Doing(PollerStep(s, Next(q)), p, Sleeping) && PollerStep(s, Next(q)).queue != []
    ensures PollerStep(s, Next(q)) == s || SomeoneLooks(PollerStep(s, Next(q)))
  {
    var u := PollerStep(s, Next(q));
    if u != s {
      if s.now > s.queue[0].deadline {
        assert u.pollers[q] == Discarding(s.queue[0].id);
      } else {
        assert |s.queue| >= 2 && p != q;
        assert Active(s, p) && Active(s, q);
      }
    }
  }

  lemma LookersAside(s: Sys, u: Sys)
    requires u.pollers == s.pollers
    ensures SomeoneLooks(u) <==> SomeoneLooks(s)
  {
  }

  lemma StepAttended(limit: nat, s: Sys, e: Event)
    requires Attended(s) && (|s.queue| <= 1 || OnePoller(s))
    ensures Attended(Step(limit, s, e))
  {
    hide CallerStep, PollerStep, ResponderStep, OnePoller, AboutToNotify, SomeoneLooks;
    var u := Step(limit, s, e);
    if p :| Doing(u, p, Sleeping) {
      if u.queue != [] {
        if OfPoller(e) {
          PollerAttends(s, e, p);
          if u.callers == s.callers { SameNotifiers(s, u); }
        } else {
          OthersAttend(limit, s, e);
          LookersAside(s, u);
          assert Doing(s, p, Sleeping);
        }
      }
    }
  }

  lemma SameNotifiers(s: Sys, u: Sys)
    requires u.callers == s.callers
    ensures AboutToNotify(u) <==> AboutToNotify(s)
  {
  }

  /** Callers, responders and the clock leave the pollers alone, and lose neither a token nor a notification. */
  lemma OthersAttend(limit: nat, s: Sys, e: Event)
    requires !OfPoller(e)
    ensures var u := Step(limit, s, e);
            && u.pollers == s.pollers && (s.token ==> u.token) && (u.queue != [] ==> s.queue != [] || AboutToNotify(u))
            && (AboutToNotify(s) ==> AboutToNotify(u) || u.token)
  {
    hide CallerStep, PollerStep, ResponderStep, AboutToNotify;
    if AboutToNotify(s) { StillAbout(limit, s, e); }
    if OfCaller(e) {
      CallerAside(limit, s, e);
    } else if OfResponder(e) {
      RespondersAside(s, e);
    }
  }

  lemma AtMostOne(s: Sys)
    requires |Actives(s)| <= 1
    ensures OnePoller(s)
  {
    forall p, q | Active(s, p) && Active(s, q) ensures p == q {
      assert {p, q} <= Actives(s);
      if p != q { Sets.SubsetIsSmaller({p, q}, Actives(s)); }
    }
  }

  lemma {:induction false} RunAttended(limit: nat, k: nat, s: Sys, events: seq<Event>)
    requires k <= 1 || limit <= 1
    requires AtMostRun(limit, k, s, events) && Attended(s) && |s.queue| <= limit && s.refused !! s.callers.Keys
    ensures Attended(Run(limit, s, events))
    decreases |events|
  {
    if events != [] {
      if k <= 1 { AtMostOne(s); }
      StepAttended(limit, s, events[0]);
      StepBounds(limit, s, events[0]);
      RunAttended(limit, k, Step(limit, s, events[0]), events[1..]);
    }
  }

  lemma PollersFrom(limit: nat, s: Sys, e: Event)
    ensures Step(limit, s, e).pollers.Keys <= s.pollers.Keys + if e.Poll? then {e.p} else {}
  {
    hide CallerStep, ResponderStep;
    if !OfPoller(e) {
      if OfCaller(e) {
        CallerAside(limit, s, e);
      } else if OfResponder(e) {
        RespondersAside(s, e);
      }
    }
  }

  lemma {:induction false} TwoPollersRun(limit: nat, k: nat, s: Sys, events: seq<Event>)
    requires k >= 2 && s.pollers.Keys <= {0, 1}
    requires forall i :: 0 <= i < |events| && events[i].Poll? ==> events[i].p in {0, 1}
    ensures AtMostRun(limit, k, s, events)
    decreases |events|
  {
    Sets.SubsetIsSmaller(Actives(s), {0, 1});
    if events != [] {
      PollersFrom(limit, s, events[0]);
      TwoPollersRun(limit, k, Step(limit, s, events[0]), events[1..]);
    }
  }

  /** The run of TwoPollersMissAWakeup. */
  function MissedWakeup(a: string, b: string): seq<Event> {
    [Poll(0), Poll(1), Next(0), Next(1), Call(a, 0, 30), Call(b, 0, 30), Notify(a), Notify(b), Wake(0), Next(0)]
  }

  lemma MissedIsUnattended(limit: nat)
    requires limit >= 2
    ensures !Attended(Run(limit, INIT, MissedWakeup("a", "b")))
  {
    hide Run, MissedWakeup, AboutToNotify;
    TwoPollersMissAWakeup(limit, "a", "b");
    var s := Run(limit, INIT, MissedWakeup("a", "b"));
    assert Doing(s, 1, Sleeping);
  }

  /** Every sleeper beside a nonempty queue is attended, in all runs with at most `k` pollers at a time, if and only if
      there is at most one poller or the queue holds at most one invocation. */
  lemma WakeupExactly(limit: nat, k: nat)
    ensures (forall events :: AtMostRun(limit, k, INIT, events) ==> Attended(Run(limit, INIT, events)))
            <==> k <= 1 || limit <= 1
  {
    if k <= 1 || limit <= 1 {
      forall events | AtMostRun(limit, k, INIT, events) ensures Attended(Run(limit, INIT, events)) {
        RunAttended(limit, k, INIT, events);
      }
    } else {
      hide Run, Step;
      TwoPollersRun(limit, k, INIT, MissedWakeup("a", "b"));
      MissedIsUnattended(limit);
    }
  }
}
