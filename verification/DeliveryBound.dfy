/** Bounded attempts among all triggers of a broker: while nothing but the functions fails for a message, it is handled
    at its queue at most max(1, MaxAttempts - its first count) times, if every consumer of the queue has a limit that
    its counts can reach, and no dead letters find their way back. `DeliveryExact` shows the other direction. */
module DeliveryBound {
  import opened Attempts
  import opened Delivery
  import opened DeliveryPlaces
  import opened DeliveryNet

  predicate Consumes(ts: seq<Trigger>, i: nat, queue: string) { i < |ts| && ts[i].queue == queue }

  /** A trigger that dead-letters, sooner or later, every failing message whose count an earlier publish wrote. */
  predicate Passes(t: Trigger) { Limited(t) && t.maxAttempts <= TWO31 }

  /** Along these triggers a failing message gets from one queue to another by being dead-lettered. */
  predicate Chain(ts: seq<Trigger>, from: string, to: string, path: seq<nat>)
    decreases |path|
  {
    if path == [] then from == to
    else Consumes(ts, path[0], from) && Passes(ts[path[0]]) && Chain(ts, ts[path[0]].dlq, to, path[1..])
  }

  ghost predicate Leads(ts: seq<Trigger>, from: string, to: string) {
    exists path :: Chain(ts, from, to, path)
  }

  /** No dead letters of the queue find their way back. */
  ghost predicate NoneReturns(ts: seq<Trigger>, queue: string) {
    forall i: nat | Consumes(ts, i, queue) :: !Leads(ts, ts[i].dlq, queue)
  }

  /** When the handlings at a queue come to an end. */
  ghost predicate Ends(ts: seq<Trigger>, queue: string, count: Int64) {
    NoneReturns(ts, queue) && forall i: nat | Consumes(ts, i, queue) :: Limited(ts[i]) && Countable(ts[i], count)
  }

  /** The largest bound of the queue's consumers; for one consumer its own. */
  function Budget(ts: seq<Trigger>, queue: string, count: Int64): (budget: nat)
    ensures budget >= 1 && forall i: nat | Consumes(ts, i, queue) :: Bound(ts[i], count) <= budget
    ensures budget == 1 || exists i: nat :: Consumes(ts, i, queue) && Bound(ts[i], count) == budget
  {
    if ts == [] then 1
    else
      var m := |ts| - 1;
      var rest := Budget(ts[..m], queue, count);
      assert forall i: nat | Consumes(ts[..m], i, queue) :: Consumes(ts, i, queue) && ts[..m][i] == ts[i];
      assert forall i: nat | Consumes(ts, i, queue) && i < m :: Consumes(ts[..m], i, queue) && ts[..m][i] == ts[i];
      if ts[m].queue == queue && Bound(ts[m], count) > rest then
        assert Consumes(ts, m, queue);
        Bound(ts[m], count)
      else rest
  }

  predicate NetSmooth(ts: seq<Trigger>, n: Net, e: NetEvent, mid: nat)
    requires Fits(ts, n)
  {
    Acts(ts, e) ==> Smooth(View(ts, n, e.client), e.event, mid)
  }

  predicate NetSmoothRun(ts: seq<Trigger>, n: Net, events: seq<NetEvent>, mid: nat)
    requires Fits(ts, n)
    decreases |events|
  {
    events == [] || (NetSmooth(ts, n, events[0], mid) && NetSmoothRun(ts, NetStep(ts, n, events[0]), events[1..], mid))
  }

  /** The end of a handling of the message by a consumer of the queue. */
  predicate HandlesAt(ts: seq<Trigger>, n: Net, e: NetEvent, queue: string, mid: nat)
    requires Fits(ts, n)
  {
    Acts(ts, e) && ts[e.client].queue == queue && Handles(View(ts, n, e.client), e.event, mid)
  }

  function HandlingsAt(ts: seq<Trigger>, n: Net, events: seq<NetEvent>, queue: string, mid: nat): nat
    requires Fits(ts, n)
    decreases |events|
  {
    if events == [] then 0
    else
      var rest := HandlingsAt(ts, NetStep(ts, n, events[0]), events[1..], queue, mid);
      rest + if HandlesAt(ts, n, events[0], queue, mid) then 1 else 0
  }

  // ----- what every step keeps -----

  predicate KnownQueues(n: Net) {
    forall name, k :: name in n.queues && 0 <= k < |n.queues[name]| ==> n.queues[name][k].mid in n.sent
  }

  ghost predicate NetReady(ts: seq<Trigger>, n: Net, mid: nat)
    requires Fits(ts, n)
  {
    KnownQueues(n) && forall i | 0 <= i < |ts| :: Ready(View(ts, n, i), mid)
  }

  lemma SameReady(s: Sys, u: Sys, mid: nat)
    requires Ready(s, mid) && s.sent <= u.sent && (forall i :: 0 <= i < |u.queue| ==> u.queue[i].mid in u.sent)
    requires u.unacked == s.unacked && u.received == s.received && u.works == s.works && u.nextTag == s.nextTag
    ensures Ready(u, mid)
  {
  }

  lemma QueueKnown(n: Net, name: string, k: nat)
    requires KnownQueues(n) && k < |QueueOf(n, name)|
    ensures QueueOf(n, name)[k].mid in n.sent
  {
  }

  lemma DeadKnown(t: Trigger, s: Sys, e: Event, mid: nat)
    requires Known(s) && (forall k :: 0 <= k < |s.dlq| ==> s.dlq[k].mid in s.sent) && !e.Produce?
    ensures var u := Step(t, s, e); forall k :: 0 <= k < |u.dlq| ==> u.dlq[k].mid in u.sent
  {
    hide Step;
    SentStays(t, s, e);
    if Step(t, s, e).dlq != s.dlq { DeadAppended(t, s, e); }
  }

  lemma ActKnown(ts: seq<Trigger>, n: Net, i: nat, e: Event, mid: nat)
    requires Fits(ts, n) && i < |ts| && !e.Produce? && NetReady(ts, n, mid)
    ensures var m := NetStep(ts, n, At(i, e)); KnownQueues(m) && m.sent == n.sent
  {
    hide Step, Ready;
    var m, s := NetStep(ts, n, At(i, e)), View(ts, n, i);
    var u := Step(ts[i], s, e);
    SentStays(ts[i], s, e);
    ReadyKnows(s, mid);
    StepKnown(ts[i], s, e);
    DeadKnown(ts[i], s, e, mid);
    forall name, k | name in m.queues && 0 <= k < |m.queues[name]| ensures m.queues[name][k].mid in m.sent {
      QueueAfter(ts, n, i, e, name);
      assert m.queues[name] == QueueOf(m, name);
      if name != ts[i].queue && name != ts[i].dlq { QueueKnown(n, name, k); }
    }
  }

  lemma ReadyKnows(s: Sys, mid: nat)
    requires Ready(s, mid)
    ensures Known(s) && Linked(s)
  {
  }

  lemma NetStepReady(ts: seq<Trigger>, n: Net, e: NetEvent, mid: nat)
    requires Fits(ts, n) && NetSmooth(ts, n, e, mid) && NetReady(ts, n, mid)
    ensures NetReady(ts, NetStep(ts, n, e), mid) && n.sent <= NetStep(ts, n, e).sent
  {
    hide Step, Ready, Smooth;
    var m := NetStep(ts, n, e);
    if Acts(ts, e) { ActKnown(ts, n, e.client, e.event, mid); }
    assert KnownQueues(m);
    forall j | 0 <= j < |ts| ensures Ready(View(ts, m, j), mid) {
      if Acts(ts, e) && e.client == j {
        OwnView(ts, n, j, e.event);
        StepReady(ts[j], View(ts, n, j), e.event, mid);
      } else {
        if Acts(ts, e) { OtherView(ts, n, e.client, e.event, j); }
        forall k | 0 <= k < |View(ts, m, j).queue| ensures View(ts, m, j).queue[k].mid in m.sent {
          QueueKnown(m, ts[j].queue, k);
        }
        SameReady(View(ts, n, j), View(ts, m, j), mid);
      }
    }
  }

  // ----- copies that have left the queue do not come back -----

  /** The count in the header fits int32, as after every publish. */
  predicate Small(copy: Copy) { -TWO31 <= FromHeaders(copy.headers) < TWO31 }

  predicate SmallAt(s: Sys, p: Place) { Holds(s, p) && Small(CopyAt(s, p)) }

  predicate Dying(s: Sys, pid: nat, mid: nat) {
    WorksOn(s, pid, mid) && s.works[pid].phase.Confirming? && s.works[pid].phase.dead
  }

  /** Copies at the trigger, if any, are small, and may be here; those about to be dead-lettered may go there. */
  ghost predicate MayStray(s: Sys, mid: nat, here: bool, there: bool) {
    && (forall p :: Carries(s, p, mid) ==> here && SmallAt(s, p))
    && (forall pid :: Dying(s, pid, mid) ==> there)
  }

  lemma NextIsSmall(copy: Copy, reason: string)
    ensures Small(NextCopy(copy, reason)) && NextCopy(copy, reason).mid == copy.mid
  {
  }

  /** A small copy stays small wherever a step moves it, and what is published is small. */
  lemma CopyBefore(t: Trigger, s: Sys, e: Event, p: Place, mid: nat)
    requires Smooth(s, e, mid) && Ready(s, mid) && !e.Produce? && Carries(Step(t, s, e), p, mid)
    ensures || (Carries(s, Origin(s, e, p), mid) && (SmallAt(s, Origin(s, e, p)) ==> SmallAt(Step(t, s, e), p)))
            || (SmallAt(Step(t, s, e), p) && e.Published?
                && (Carries(s, AtWork(e.pid), mid) || (Dying(s, e.pid, mid) && t.dlq == t.queue)))
  {
    hide AfterHandler, Slots, FromHeaders, NextAttempts, NextCopy, Small, Smooth, Ready;
    match e
    case Published(pid, stored, confirmed) => PublishedBefore(t, s, pid, stored, confirmed, p, mid);
    case Nacked(_, _) => RequeuedBefore(t, s, e, p, mid);
    case Returned(_) => RequeuedBefore(t, s, e, p, mid);
    case Handled(pid, call) => HandledPlace(t, s, pid, call, p);
    case _ =>
  }

  lemma RequeuedBefore(t: Trigger, s: Sys, e: Event, p: Place, mid: nat)
    requires (e.Nacked? || e.Returned?) && Smooth(s, e, mid) && Ready(s, mid) && Carries(Step(t, s, e), p, mid)
    ensures Carries(s, p, mid) && CopyAt(s, p) == CopyAt(Step(t, s, e), p)
  {
    RequeuedPlace(t, s, e, p, mid);
    hide NextCount, FromHeaders, NextAttempts, Smooth;
  }

  lemma PublishedBefore(t: Trigger, s: Sys, pid: nat, stored: bool, confirmed: bool, p: Place, mid: nat)
    requires Carries(Step(t, s, Published(pid, stored, confirmed)), p, mid)
    ensures var u := Step(t, s, Published(pid, stored, confirmed));
            || (Carries(s, p, mid) && CopyAt(s, p) == CopyAt(u, p))
            || (p == AtQueue(|s.queue|) && SmallAt(u, p)
                && (Carries(s, AtWork(pid), mid) || (Dying(s, pid, mid) && t.dlq == t.queue)))
  {
    hide FromHeaders, NextCopy, Small;
    if pid in s.works && s.works[pid].phase.Confirming? {
      NextIsSmall(s.works[pid].copy, s.works[pid].phase.reason);
    }
  }

  /** Only a handling makes a copy one to be dead-lettered; of small copies only triggers do so that pass them on. */
  lemma DyingBefore(t: Trigger, s: Sys, e: Event, pid: nat, mid: nat)
    requires Dying(Step(t, s, e), pid, mid)
    ensures Dying(s, pid, mid)
         || (Carries(s, AtWork(pid), mid) && (SmallAt(s, AtWork(pid)) ==> Passes(t)))
  {
    hide AfterHandler, Slots, FromHeaders, NextCopy, ShouldDlq, Passes;
    if e.Handled? && In(s, e.pid, Handling) {
      DeadVerdict(t, s.works[e.pid].copy, e.call);
      SmallPass(t, FromHeaders(s.works[e.pid].copy.headers));
    }
  }

  lemma SmallPass(t: Trigger, count: Int64)
    ensures ShouldDlq(t, count) && count < TWO31 ==> Passes(t)
  {
  }

  lemma StepStray(t: Trigger, s: Sys, e: Event, mid: nat, here: bool, there: bool)
    requires Smooth(s, e, mid) && Ready(s, mid) && !e.Produce? && MayStray(s, mid, here, there)
    requires (here && Passes(t) ==> there) && (t.dlq == t.queue ==> (there ==> here))
    ensures MayStray(Step(t, s, e), mid, here, there)
  {
    hide Step, Smooth, Ready, Carries, Dying, FromHeaders, SmallAt;
    var u := Step(t, s, e);
    forall p | Carries(u, p, mid) ensures here && SmallAt(u, p) { CopyBefore(t, s, e, p, mid); }
    forall pid | Dying(u, pid, mid) ensures there { DyingBefore(t, s, e, pid, mid); }
  }

  /** Away from the queue the message stays where no dead letters lead back to it. */
  ghost predicate Astray(ts: seq<Trigger>, n: Net, queue: string, mid: nat)
    requires Fits(ts, n)
  {
    && (forall i, p: Place | 0 <= i < |ts| && ts[i].queue != queue && !p.AtQueue? && Carries(View(ts, n, i), p, mid) ::
          !Leads(ts, ts[i].queue, queue) && SmallAt(View(ts, n, i), p))
    && (forall i, pid | 0 <= i < |ts| && Dying(View(ts, n, i), pid, mid) :: !Leads(ts, ts[i].dlq, queue))
    && (forall name, k | name != queue && 0 <= k < |QueueOf(n, name)| && QueueOf(n, name)[k].mid == mid ::
          !Leads(ts, name, queue) && Small(QueueOf(n, name)[k]))
  }

  lemma LeadsToItself(ts: seq<Trigger>, queue: string)
    ensures Leads(ts, queue, queue)
  {
    assert Chain(ts, queue, queue, []);
  }

  lemma LeadsOn(ts: seq<Trigger>, i: nat, queue: string)
    requires i < |ts| && Passes(ts[i]) && Leads(ts, ts[i].dlq, queue)
    ensures Leads(ts, ts[i].queue, queue)
  {
    var path :| Chain(ts, ts[i].dlq, queue, path);
    assert ([i] + path)[1..] == path;
    assert Chain(ts, ts[i].queue, queue, [i] + path);
  }

  lemma SeenAstray(ts: seq<Trigger>, n: Net, i: nat, queue: string, mid: nat)
    requires Fits(ts, n) && Astray(ts, n, queue, mid) && i < |ts| && ts[i].queue != queue
    ensures MayStray(View(ts, n, i), mid, !Leads(ts, ts[i].queue, queue), !Leads(ts, ts[i].dlq, queue))
  {
    hide Leads, Small;
    var s := View(ts, n, i);
    forall p | Carries(s, p, mid) ensures !Leads(ts, ts[i].queue, queue) && SmallAt(s, p) {
      if p.AtQueue? { assert QueueOf(n, ts[i].queue)[p.index].mid == mid; }
    }
  }

  lemma SameClient(s: Sys, u: Sys, p: Place, mid: nat)
    requires u.received == s.received && u.works == s.works && !p.AtQueue?
    ensures Carries(u, p, mid) <==> Carries(s, p, mid)
    ensures SmallAt(u, p) <==> SmallAt(s, p)
    ensures Holds(s, p) ==> Holds(u, p) && NextCount(u, p) == NextCount(s, p)
  {
  }

  lemma SameDying(s: Sys, u: Sys, pid: nat, mid: nat)
    requires u.works == s.works
    ensures Dying(u, pid, mid) <==> Dying(s, pid, mid)
  {
  }

  /** The dead letters that a step adds. */
  lemma DeadLetter(t: Trigger, s: Sys, e: Event, k: nat, mid: nat)
    requires k < |Step(t, s, e).dlq| && Step(t, s, e).dlq[k].mid == mid
    ensures || (k < |s.dlq| && s.dlq[k] == Step(t, s, e).dlq[k])
            || (Small(Step(t, s, e).dlq[k]) && e.Published? && Dying(s, e.pid, mid))
  {
    hide Step, NextCopy, Small;
    if Step(t, s, e).dlq != s.dlq {
      DeadAppended(t, s, e);
      NextIsSmall(s.works[e.pid].copy, s.works[e.pid].phase.reason);
    }
  }

  lemma ActAstrayAtClients(ts: seq<Trigger>, n: Net, i: nat, e: Event, queue: string, mid: nat, j: nat)
    requires Fits(ts, n) && i < |ts| && j < |ts| && !e.Produce? && NetReady(ts, n, mid) && Astray(ts, n, queue, mid)
    requires Smooth(View(ts, n, i), e, mid)
    requires NoneReturns(ts, queue)
    ensures var u := View(ts, NetStep(ts, n, At(i, e)), j);
            && (ts[j].queue != queue ==> forall p: Place | !p.AtQueue? && Carries(u, p, mid) ::
                  !Leads(ts, ts[j].queue, queue) && SmallAt(u, p))
            && (forall pid | Dying(u, pid, mid) :: !Leads(ts, ts[j].dlq, queue))
  {
    hide Step, Smooth, Ready, Carries, Dying, Small, Leads, SmallAt, Passes;
    var s, u := View(ts, n, j), View(ts, NetStep(ts, n, At(i, e)), j);
    if i == j {
      OwnView(ts, n, i, e);
      if ts[i].queue != queue {
        SeenAstray(ts, n, i, queue, mid);
        if Passes(ts[i]) && Leads(ts, ts[i].dlq, queue) { LeadsOn(ts, i, queue); }
        StepStray(ts[i], s, e, mid, !Leads(ts, ts[i].queue, queue), !Leads(ts, ts[i].dlq, queue));
      }
    } else {
      OtherView(ts, n, i, e, j);
      forall p: Place | ts[j].queue != queue && !p.AtQueue? && Carries(u, p, mid)
        ensures !Leads(ts, ts[j].queue, queue) && SmallAt(u, p)
      {
        SameClient(s, u, p, mid);
      }
      forall pid | Dying(u, pid, mid) ensures !Leads(ts, ts[j].dlq, queue) { SameDying(s, u, pid, mid); }
    }
  }

  lemma ActAstrayInQueues(ts: seq<Trigger>, n: Net, i: nat, e: Event, queue: string, mid: nat, name: string, k: nat)
    requires Fits(ts, n) && i < |ts| && !e.Produce? && NetReady(ts, n, mid) && Astray(ts, n, queue, mid)
    requires Smooth(View(ts, n, i), e, mid)
    requires NoneReturns(ts, queue)
    requires var m := NetStep(ts, n, At(i, e));
             name != queue && k < |QueueOf(m, name)| && QueueOf(m, name)[k].mid == mid
    ensures !Leads(ts, name, queue) && Small(QueueOf(NetStep(ts, n, At(i, e)), name)[k])
  {
    hide Step, Smooth, Ready, Dying, Small, Leads, Passes;
    var s := View(ts, n, i);
    var u := Step(ts[i], s, e);
    QueueAfter(ts, n, i, e, name);
    if name == ts[i].queue {
      SeenAstray(ts, n, i, queue, mid);
      if Passes(ts[i]) && Leads(ts, ts[i].dlq, queue) { LeadsOn(ts, i, queue); }
      StepStray(ts[i], s, e, mid, !Leads(ts, ts[i].queue, queue), !Leads(ts, ts[i].dlq, queue));
      assert Carries(u, AtQueue(k), mid) && CopyAt(u, AtQueue(k)) == u.queue[k];
    } else if name == ts[i].dlq {
      DeadLetter(ts[i], s, e, k, mid);
    }
  }

  lemma NetStepAstray(ts: seq<Trigger>, n: Net, e: NetEvent, queue: string, mid: nat)
    requires Fits(ts, n) && NetReady(ts, n, mid) && NetSmooth(ts, n, e, mid) && mid in n.sent
    requires Astray(ts, n, queue, mid) && NoneReturns(ts, queue)
    ensures Astray(ts, NetStep(ts, n, e), queue, mid)
  {
    hide Step, Smooth, Ready, Dying, Small, SmallAt, Leads, Carries, NetReady, NoneReturns;
    var m := NetStep(ts, n, e);
    if Acts(ts, e) {
      forall j | 0 <= j < |ts|
        ensures ts[j].queue != queue ==> forall p: Place | !p.AtQueue? && Carries(View(ts, m, j), p, mid) ::
                  !Leads(ts, ts[j].queue, queue) && SmallAt(View(ts, m, j), p)
        ensures forall pid | Dying(View(ts, m, j), pid, mid) :: !Leads(ts, ts[j].dlq, queue)
      {
        ActAstrayAtClients(ts, n, e.client, e.event, queue, mid, j);
      }
      forall name, k | name != queue && 0 <= k < |QueueOf(m, name)| && QueueOf(m, name)[k].mid == mid
        ensures !Leads(ts, name, queue) && Small(QueueOf(m, name)[k])
      {
        ActAstrayInQueues(ts, n, e.client, e.event, queue, mid, name, k);
      }
    } else if m != n {
      SentAstray(ts, n, e, queue, mid);
    }
  }

  lemma SentAstray(ts: seq<Trigger>, n: Net, e: NetEvent, queue: string, mid: nat)
    requires Fits(ts, n) && e.Send? && e.mid != mid && Astray(ts, n, queue, mid)
    ensures Astray(ts, NetStep(ts, n, e), queue, mid)
  {
    hide Leads, Small, Carries, SmallAt, Dying;
    var m := NetStep(ts, n, e);
    forall i, p: Place | 0 <= i < |ts| && ts[i].queue != queue && !p.AtQueue? && Carries(View(ts, m, i), p, mid)
      ensures !Leads(ts, ts[i].queue, queue) && SmallAt(View(ts, m, i), p)
    {
      SameClient(View(ts, n, i), View(ts, m, i), p, mid);
    }
    forall i, pid | 0 <= i < |ts| && Dying(View(ts, m, i), pid, mid) ensures !Leads(ts, ts[i].dlq, queue) {
      SameDying(View(ts, n, i), View(ts, m, i), pid, mid);
    }
    forall name, k | name != queue && 0 <= k < |QueueOf(m, name)| && QueueOf(m, name)[k].mid == mid
      ensures !Leads(ts, name, queue) && Small(QueueOf(m, name)[k])
    {
      assert QueueOf(n, name)[k] == QueueOf(m, name)[k];
    }
  }

  // ----- the handlings at the queue use up the budget -----

  ghost predicate Affordable(ts: seq<Trigger>, queue: string, count: Int64, budget: nat) {
    forall i: nat | Consumes(ts, i, queue) :: Countable(ts[i], count) && Bound(ts[i], count) <= budget
  }

  ghost predicate AffordableAt(ts: seq<Trigger>, queue: string, s: Sys, p: Place, budget: nat) {
    Holds(s, p) && Affordable(ts, queue, NextCount(s, p), budget)
  }

  predicate CarriesAt(ts: seq<Trigger>, n: Net, queue: string, i: nat, p: Place, mid: nat)
    requires Fits(ts, n)
  {
    Consumes(ts, i, queue) && Carries(View(ts, n, i), p, mid)
  }

  /** The message is in one place of the queue and its consumers at most. */
  ghost predicate Single(ts: seq<Trigger>, n: Net, queue: string, mid: nat)
    requires Fits(ts, n)
  {
    forall i: nat, j: nat, p, r | CarriesAt(ts, n, queue, i, p, mid) && CarriesAt(ts, n, queue, j, r, mid) ::
      p == r && (p.AtQueue? || i == j)
  }

  /** And what it costs from there is within the budget. */
  ghost predicate Within(ts: seq<Trigger>, n: Net, queue: string, mid: nat, budget: nat)
    requires Fits(ts, n)
  {
    Single(ts, n, queue, mid)
    && forall i: nat, p | CarriesAt(ts, n, queue, i, p, mid) ::
         AffordableAt(ts, queue, View(ts, n, i), p, budget)
  }

  /** A retry by one consumer uses up one attempt of everyone's budget. */
  lemma RetryCosts(ts: seq<Trigger>, queue: string, i: nat, count: Int64, budget: nat)
    requires Consumes(ts, i, queue) && Affordable(ts, queue, count, budget) && count + 1 < ts[i].maxAttempts
    ensures budget > 1 && Affordable(ts, queue, NextAttempts(count), budget - 1)
  {
    assert Countable(ts[i], count);
    NextIsHigher(count);
  }

  lemma SharedQueue(s: Sys, u: Sys, p: Place, mid: nat)
    requires s.queue == u.queue && p.AtQueue?
    ensures Carries(s, p, mid) <==> Carries(u, p, mid)
    ensures Holds(s, p) ==> Holds(u, p) && NextCount(s, p) == NextCount(u, p)
  {
  }

  /** The trigger whose step explains a place, and what it holds before the step. */
  lemma SourceOf(ts: seq<Trigger>, n: Net, i: nat, e: Event, queue: string, j: nat, p: Place, mid: nat)
    requires Fits(ts, n) && Consumes(ts, i, queue) && Consumes(ts, j, queue) && ts[i].dlq != queue
    requires !e.Produce? && !e.Handled? && NetReady(ts, n, mid) && Smooth(View(ts, n, i), e, mid)
    requires Carries(View(ts, NetStep(ts, n, At(i, e)), j), p, mid)
    ensures var s, w := View(ts, n, i), View(ts, NetStep(ts, n, At(i, e)), j);
            if j == i || p.AtQueue? then
              && Carries(Step(ts[i], s, e), p, mid) && Carries(s, Origin(s, e, p), mid)
              && Holds(w, p) && Holds(s, Origin(s, e, p)) && NextCount(w, p) == NextCount(s, Origin(s, e, p))
            else
              && Carries(View(ts, n, j), p, mid)
              && Holds(w, p) && Holds(View(ts, n, j), p) && NextCount(w, p) == NextCount(View(ts, n, j), p)
  {
    hide Step, Smooth, Ready, Origin, NextCount;
    var s, w := View(ts, n, i), View(ts, NetStep(ts, n, At(i, e)), j);
    OwnView(ts, n, i, e);
    if j == i || p.AtQueue? {
      if j != i { SharedQueue(w, View(ts, NetStep(ts, n, At(i, e)), i), p, mid); }
      PlaceBefore(ts[i], s, e, p, mid);
    } else {
      OtherView(ts, n, i, e, j);
      SameClient(View(ts, n, j), w, p, mid);
    }
  }

  lemma ActSingle(ts: seq<Trigger>, n: Net, i: nat, e: Event, queue: string, mid: nat)
    requires Fits(ts, n) && Consumes(ts, i, queue) && ts[i].dlq != queue && !e.Produce? && !e.Handled?
    requires NetReady(ts, n, mid) && Smooth(View(ts, n, i), e, mid) && Single(ts, n, queue, mid)
    ensures Single(ts, NetStep(ts, n, At(i, e)), queue, mid)
  {
    hide Step, Smooth, Ready, Origin, Carries, Holds, NextCount, NetStep;
    var m, s := NetStep(ts, n, At(i, e)), View(ts, n, i);
    forall j: nat, k: nat, p, r | CarriesAt(ts, m, queue, j, p, mid) && CarriesAt(ts, m, queue, k, r, mid)
      ensures p == r && (p.AtQueue? || j == k)
    {
      SourceOf(ts, n, i, e, queue, j, p, mid);
      SourceOf(ts, n, i, e, queue, k, r, mid);
      var a, o := if j == i || p.AtQueue? then (i, Origin(s, e, p)) else (j, p),
                  if k == i || r.AtQueue? then (i, Origin(s, e, r)) else (k, r);
      assert CarriesAt(ts, n, queue, a.0, a.1, mid) && CarriesAt(ts, n, queue, o.0, o.1, mid);
      if (j == i || p.AtQueue?) && (k == i || r.AtQueue?) { OriginsDiffer(ts[i], s, e, p, r, mid); }
    }
  }

  lemma ActWithin(ts: seq<Trigger>, n: Net, i: nat, e: Event, queue: string, mid: nat, budget: nat)
    requires Fits(ts, n) && Consumes(ts, i, queue) && ts[i].dlq != queue && !e.Produce? && !e.Handled?
    requires NetReady(ts, n, mid) && Smooth(View(ts, n, i), e, mid) && Within(ts, n, queue, mid, budget)
    ensures Within(ts, NetStep(ts, n, At(i, e)), queue, mid, budget)
  {
    hide Step, Smooth, Ready, Origin, Carries, Holds, NextCount, Affordable, NetStep, Single;
    var m := NetStep(ts, n, At(i, e));
    ActSingle(ts, n, i, e, queue, mid);
    forall j: nat, p | CarriesAt(ts, m, queue, j, p, mid) ensures AffordableAt(ts, queue, View(ts, m, j), p, budget) {
      SourceOf(ts, n, i, e, queue, j, p, mid);
      var o := if j == i || p.AtQueue? then (i, Origin(View(ts, n, i), e, p)) else (j, p);
      assert CarriesAt(ts, n, queue, o.0, o.1, mid);
    }
  }

  /** The end of a handling moves nothing; only its own goroutine's next count changes. */
  lemma HandledSource(ts: seq<Trigger>, n: Net, i: nat, pid: nat, call: Call, queue: string, j: nat, p: Place, mid: nat)
    requires Fits(ts, n) && Consumes(ts, i, queue) && Consumes(ts, j, queue)
    requires Carries(View(ts, NetStep(ts, n, At(i, Handled(pid, call))), j), p, mid)
    ensures var s, w := View(ts, n, j), View(ts, NetStep(ts, n, At(i, Handled(pid, call))), j);
            && Carries(s, p, mid) && Holds(s, p) && Holds(w, p)
            && (j != i || p != AtWork(pid) || !In(s, pid, Handling) ==> NextCount(w, p) == NextCount(s, p))
  {
    hide Step, NextCount;
    var e := Handled(pid, call);
    var s, w := View(ts, n, j), View(ts, NetStep(ts, n, At(i, e)), j);
    OwnView(ts, n, i, e);
    if j == i {
      HandledPlace(ts[i], s, pid, call, p);
    } else {
      OtherView(ts, n, i, e, j);
      if p.AtQueue? {
        SharedQueue(w, View(ts, NetStep(ts, n, At(i, e)), i), p, mid);
        HandledPlace(ts[i], View(ts, n, i), pid, call, p);
        SharedQueue(View(ts, n, i), s, p, mid);
      } else {
        SameClient(s, w, p, mid);
      }
    }
  }

  /** If the goroutine still carries the message after a smooth handling, it will retry. */
  lemma RetryNext(t: Trigger, s: Sys, pid: nat, call: Call)
    requires In(s, pid, Handling) && Limited(t) && Countable(t, FromHeaders(s.works[pid].copy.headers))
    requires Succeeds(Handled(pid, call)) && Holds(Step(t, s, Handled(pid, call)), AtWork(pid))
    ensures NextCount(s, AtWork(pid)) + 1 < t.maxAttempts
    ensures NextCount(Step(t, s, Handled(pid, call)), AtWork(pid)) == NextAttempts(NextCount(s, AtWork(pid)))
  {
    hide FromHeaders;
    assert Verdict(t, FromHeaders(s.works[pid].copy.headers), call).Retry?;
  }

  lemma OwnWithin(ts: seq<Trigger>, n: Net, i: nat, e: Event, queue: string, mid: nat, budget: nat)
    requires Fits(ts, n) && Consumes(ts, i, queue) && Limited(ts[i]) && e.Handled?
    requires Smooth(View(ts, n, i), e, mid) && Handles(View(ts, n, i), e, mid)
    requires Within(ts, n, queue, mid, budget)
    ensures budget >= 1
    ensures var u := Step(ts[i], View(ts, n, i), e);
            Carries(u, AtWork(e.pid), mid) ==> budget > 1 && AffordableAt(ts, queue, u, AtWork(e.pid), budget - 1)
  {
    hide Step, NextAttempts, Bound, Countable, FromHeaders;
    var s, own := View(ts, n, i), AtWork(e.pid);
    assert CarriesAt(ts, n, queue, i, own, mid);
    assert AffordableAt(ts, queue, s, own, budget);
    AtLeastOne(ts, queue, i, NextCount(s, own), budget);
    if Carries(Step(ts[i], s, e), own, mid) {
      RetryNext(ts[i], s, e.pid, e.call);
      RetryCosts(ts, queue, i, NextCount(s, own), budget);
    }
  }

  lemma AtLeastOne(ts: seq<Trigger>, queue: string, i: nat, count: Int64, budget: nat)
    requires Consumes(ts, i, queue) && Affordable(ts, queue, count, budget)
    ensures budget >= 1 && Countable(ts[i], count)
  {
  }

  lemma HandledWithin(ts: seq<Trigger>, n: Net, i: nat, e: Event, queue: string, mid: nat, budget: nat)
    requires Fits(ts, n) && Consumes(ts, i, queue) && Limited(ts[i]) && e.Handled?
    requires Smooth(View(ts, n, i), e, mid) && Within(ts, n, queue, mid, budget)
    ensures var m := NetStep(ts, n, At(i, e));
            if Handles(View(ts, n, i), e, mid) then budget >= 1 && Within(ts, m, queue, mid, budget - 1)
            else Within(ts, m, queue, mid, budget)
  {
    hide Step, Smooth, Holds, Carries, NextCount, Affordable, NetStep;
    var m, s, own := NetStep(ts, n, At(i, e)), View(ts, n, i), AtWork(e.pid);
    var handles := Handles(s, e, mid);
    OwnView(ts, n, i, e);
    if handles { OwnWithin(ts, n, i, e, queue, mid, budget); OwnCarries(s, e, mid); }
    assert handles ==> CarriesAt(ts, n, queue, i, own, mid);
    forall j: nat, p | CarriesAt(ts, m, queue, j, p, mid)
      ensures CarriesAt(ts, n, queue, j, p, mid)
      ensures AffordableAt(ts, queue, View(ts, m, j), p, if handles then budget - 1 else budget)
    {
      HandledSource(ts, n, i, e.pid, e.call, queue, j, p, mid);
      assert CarriesAt(ts, n, queue, j, p, mid);
      if handles { assert p == own && j == i; } else { NotItsOwn(s, e, mid); }
    }
  }

  lemma OwnCarries(s: Sys, e: Event, mid: nat)
    requires e.Handled? && Handles(s, e, mid)
    ensures Carries(s, AtWork(e.pid), mid)
  {
  }

  lemma NotItsOwn(s: Sys, e: Event, mid: nat)
    requires e.Handled? && !Handles(s, e, mid)
    ensures In(s, e.pid, Handling) ==> !Carries(s, AtWork(e.pid), mid)
  {
  }

  /** What other triggers do adds no copy of the message to the queue. */
  lemma OtherWithin(ts: seq<Trigger>, n: Net, i: nat, e: Event, queue: string, mid: nat, budget: nat)
    requires Fits(ts, n) && i < |ts| && ts[i].queue != queue && !e.Produce? && Astray(ts, n, queue, mid)
    requires Within(ts, n, queue, mid, budget)
    ensures Within(ts, NetStep(ts, n, At(i, e)), queue, mid, budget)
  {
    hide Step, NetStep, Holds, Carries, NextCount, Affordable, Dying, Small, SmallAt, Leads;
    var m := NetStep(ts, n, At(i, e));
    QueueAfter(ts, n, i, e, queue);
    forall j: nat, p | CarriesAt(ts, m, queue, j, p, mid)
      ensures CarriesAt(ts, n, queue, j, p, mid) && AffordableAt(ts, queue, View(ts, m, j), p, budget)
    {
      OtherView(ts, n, i, e, j);
      if p.AtQueue? {
        var k := p.index;
        QueueCarries(View(ts, m, j), k, mid);
        QueueCarries(View(ts, n, j), k, mid);
        if queue == ts[i].dlq {
          DeadLetter(ts[i], View(ts, n, i), e, k, mid);
          LeadsToItself(ts, queue);
        }
        SameCopy(View(ts, n, j), View(ts, m, j), k);
      } else {
        SameClient(View(ts, n, j), View(ts, m, j), p, mid);
      }
      assert CarriesAt(ts, n, queue, j, p, mid);
      assert AffordableAt(ts, queue, View(ts, n, j), p, budget);
    }
  }

  lemma QueueCarries(s: Sys, k: nat, mid: nat)
    ensures Carries(s, AtQueue(k), mid) <==> k < |s.queue| && s.queue[k].mid == mid
  {
  }

  lemma SameCopy(s: Sys, u: Sys, k: nat)
    requires k < |s.queue| && k < |u.queue| && s.queue[k] == u.queue[k]
    ensures Holds(s, AtQueue(k)) && Holds(u, AtQueue(k)) && NextCount(s, AtQueue(k)) == NextCount(u, AtQueue(k))
  {
  }

  lemma SendWithin(ts: seq<Trigger>, n: Net, e: NetEvent, queue: string, mid: nat, budget: nat)
    requires Fits(ts, n) && e.Send? && mid in n.sent && Within(ts, n, queue, mid, budget)
    ensures Within(ts, NetStep(ts, n, e), queue, mid, budget)
  {
    hide Holds, Carries, NextCount, Affordable;
    var m := NetStep(ts, n, e);
    forall j: nat, p | m != n && CarriesAt(ts, m, queue, j, p, mid)
      ensures CarriesAt(ts, n, queue, j, p, mid) && AffordableAt(ts, queue, View(ts, m, j), p, budget)
    {
      if p.AtQueue? {
        QueueCarries(View(ts, m, j), p.index, mid);
        QueueCarries(View(ts, n, j), p.index, mid);
        SameCopy(View(ts, n, j), View(ts, m, j), p.index);
      } else {
        SameClient(View(ts, n, j), View(ts, m, j), p, mid);
      }
      assert CarriesAt(ts, n, queue, j, p, mid);
      assert AffordableAt(ts, queue, View(ts, n, j), p, budget);
    }
  }

  /** Each handling at the queue uses up one attempt of the budget, and no other step uses any. */
  lemma NetStepWithin(ts: seq<Trigger>, n: Net, e: NetEvent, queue: string, mid: nat, budget: nat)
    requires Fits(ts, n) && NetReady(ts, n, mid) && NetSmooth(ts, n, e, mid) && mid in n.sent
    requires Astray(ts, n, queue, mid) && NoneReturns(ts, queue) && Within(ts, n, queue, mid, budget)
    requires forall i: nat | Consumes(ts, i, queue) :: Limited(ts[i])
    ensures HandlesAt(ts, n, e, queue, mid) ==> budget >= 1 && Within(ts, NetStep(ts, n, e), queue, mid, budget - 1)
    ensures !HandlesAt(ts, n, e, queue, mid) ==> Within(ts, NetStep(ts, n, e), queue, mid, budget)
  {
    hide NetStep, Smooth, NetReady, Astray, Within, Leads, Limited;
    if e.Send? {
      SendWithin(ts, n, e, queue, mid, budget);
    } else if Acts(ts, e) {
      LeadsToItself(ts, queue);
      if ts[e.client].queue != queue {
        OtherWithin(ts, n, e.client, e.event, queue, mid, budget);
      } else if e.event.Handled? {
        assert Consumes(ts, e.client, queue);
        HandledWithin(ts, n, e.client, e.event, queue, mid, budget);
      } else {
        assert Consumes(ts, e.client, queue);
        ActWithin(ts, n, e.client, e.event, queue, mid, budget);
      }
    } else {
      NothingDone(ts, n, e);
    }
  }

  lemma NothingDone(ts: seq<Trigger>, n: Net, e: NetEvent)
    requires Fits(ts, n) && !e.Send? && !Acts(ts, e)
    ensures NetStep(ts, n, e) == n
  {
  }

  lemma {:induction false} WithinBudget(
      ts: seq<Trigger>, n: Net, events: seq<NetEvent>, queue: string, mid: nat, budget: nat)
    requires Fits(ts, n) && NetReady(ts, n, mid) && NetSmoothRun(ts, n, events, mid) && mid in n.sent
    requires Astray(ts, n, queue, mid) && NoneReturns(ts, queue) && Within(ts, n, queue, mid, budget)
    requires forall i: nat | Consumes(ts, i, queue) :: Limited(ts[i])
    ensures HandlingsAt(ts, n, events, queue, mid) <= budget
    decreases |events|
  {
    if events != [] {
      hide NetStep, NetSmooth, NetReady, Astray, Within, HandlesAt, NoneReturns, Limited;
      var e := events[0];
      NetStepWithin(ts, n, e, queue, mid, budget);
      NetStepAstray(ts, n, e, queue, mid);
      NetStepReady(ts, n, e, mid);
      var left := if HandlesAt(ts, n, e, queue, mid) then budget - 1 else budget;
      WithinBudget(ts, NetStep(ts, n, e), events[1..], queue, mid, left);
    }
  }

  // ----- the message enters -----

  /** The state after the message was sent to the queue. */
  function Entered(ts: seq<Trigger>, n: Net, queue: string, mid: nat, headers: map<string, Header>): (m: Net)
    requires Fits(ts, n)
    ensures Fits(ts, m) && mid in m.sent
  {
    NetStep(ts, n, Send(queue, mid, headers))
  }

  /** Nothing has happened to a message that was not sent. */
  predicate Untouched(s: Sys, mid: nat) {
    && (forall tag :: tag in s.received ==> s.received[tag].copy.mid != mid)
    && (forall pid :: pid in s.works ==> s.works[pid].copy.mid != mid)
  }

  lemma UntouchedPlaces(s: Sys, mid: nat, p: Place)
    requires Untouched(s, mid) && Carries(s, p, mid)
    ensures p.AtQueue?
  {
  }

  lemma UntouchedWorks(s: Sys, mid: nat, pid: nat)
    requires Untouched(s, mid)
    ensures !WorksOn(s, pid, mid)
  {
  }

  lemma UnsentIsUntouched(s: Sys, mid: nat)
    requires Known(s) && mid !in s.sent
    ensures Untouched(s, mid)
  {
  }

  lemma FirstPlace(ts: seq<Trigger>, n: Net, queue: string, mid: nat, headers: map<string, Header>)
    requires Fits(ts, n) && NetReady(ts, n, mid) && mid !in n.sent && Ends(ts, queue, FromHeaders(headers))
    ensures var m := Entered(ts, n, queue, mid, headers);
            Astray(ts, m, queue, mid) && Within(ts, m, queue, mid, Budget(ts, queue, FromHeaders(headers)))
  {
    hide Leads, Small, SmallAt, Ready, FromHeaders, Budget, Countable, Bound, Carries, Untouched, Limited;
    var m := Entered(ts, n, queue, mid, headers);
    forall i | 0 <= i < |ts| ensures Untouched(View(ts, m, i), mid) {
      ReadyKnows(View(ts, n, i), mid);
      UnsentIsUntouched(View(ts, n, i), mid);
      SameUntouched(View(ts, n, i), View(ts, m, i), mid);
    }
    forall i, p: Place | 0 <= i < |ts| && Carries(View(ts, m, i), p, mid) ensures p.AtQueue? {
      UntouchedPlaces(View(ts, m, i), mid, p);
    }
    forall i, pid | 0 <= i < |ts| ensures !Dying(View(ts, m, i), pid, mid) {
      UntouchedWorks(View(ts, m, i), mid, pid);
    }
    forall name, k | 0 <= k < |QueueOf(m, name)| && QueueOf(m, name)[k].mid == mid
      ensures name == queue && k == |QueueOf(n, queue)|
    {
      if name != queue || k < |QueueOf(n, queue)| { QueueKnown(n, name, k); }
    }
    forall i: nat, p | CarriesAt(ts, m, queue, i, p, mid)
      ensures p == AtQueue(|QueueOf(n, queue)|)
      ensures AffordableAt(ts, queue, View(ts, m, i), p, Budget(ts, queue, FromHeaders(headers)))
    {
      QueueCarries(View(ts, m, i), p.index, mid);
    }
  }

  lemma SameUntouched(s: Sys, u: Sys, mid: nat)
    requires Untouched(s, mid) && u.received == s.received && u.works == s.works
    ensures Untouched(u, mid)
  {
  }

  lemma StartReady(ts: seq<Trigger>, mid: nat)
    ensures NetReady(ts, Start(ts), mid)
  {
  }

  /** Before the message is sent, every run is smooth for it. */
  lemma {:induction false} UnsentReady(ts: seq<Trigger>, n: Net, events: seq<NetEvent>, mid: nat)
    requires Fits(ts, n) && NetReady(ts, n, mid) && mid !in NetRun(ts, n, events).sent
    ensures mid !in n.sent && NetReady(ts, NetRun(ts, n, events), mid)
    decreases |events|
  {
    if events != [] {
      hide NetReady, NetStep, Smooth;
      var e := events[0];
      SentGrows(ts, n, e);
      RunSentGrows(ts, NetStep(ts, n, e), events[1..]);
      if Acts(ts, e) { UnsentIsSmooth(ts, n, e, mid); }
      NetStepReady(ts, n, e, mid);
      UnsentReady(ts, NetStep(ts, n, e), events[1..], mid);
    }
  }

  lemma SentGrows(ts: seq<Trigger>, n: Net, e: NetEvent)
    requires Fits(ts, n)
    ensures n.sent <= NetStep(ts, n, e).sent
  {
    hide Step;
    if Acts(ts, e) { SentStays(ts[e.client], View(ts, n, e.client), e.event); }
  }

  lemma {:induction false} RunSentGrows(ts: seq<Trigger>, n: Net, events: seq<NetEvent>)
    requires Fits(ts, n)
    ensures n.sent <= NetRun(ts, n, events).sent
    decreases |events|
  {
    if events != [] {
      SentGrows(ts, n, events[0]);
      RunSentGrows(ts, NetStep(ts, n, events[0]), events[1..]);
    }
  }

  lemma UnsentIsSmooth(ts: seq<Trigger>, n: Net, e: NetEvent, mid: nat)
    requires Fits(ts, n) && NetReady(ts, n, mid) && Acts(ts, e) && mid !in n.sent
    ensures Smooth(View(ts, n, e.client), e.event, mid)
  {
    assert Known(View(ts, n, e.client));
  }

  /** A message that enters the queue, after anything, with count a is handled there at most as often as the largest
      bound of its consumers says, in any run that is smooth for it, whatever happens to other messages. */
  lemma HandledWithinBound(ts: seq<Trigger>, queue: string, before: seq<NetEvent>, mid: nat,
                           headers: map<string, Header>, after: seq<NetEvent>)
    requires Ends(ts, queue, FromHeaders(headers)) && mid !in NetRun(ts, Start(ts), before).sent
    requires NetSmoothRun(ts, Entered(ts, NetRun(ts, Start(ts), before), queue, mid, headers), after, mid)
    ensures HandlingsAt(ts, Entered(ts, NetRun(ts, Start(ts), before), queue, mid, headers), after, queue, mid)
         <= Budget(ts, queue, FromHeaders(headers))
  {
    hide NetReady, Budget, Astray, Within, NetRun, FromHeaders;
    var n := NetRun(ts, Start(ts), before);
    StartReady(ts, mid);
    UnsentReady(ts, Start(ts), before, mid);
    FirstPlace(ts, n, queue, mid, headers);
    NetStepReady(ts, n, Send(queue, mid, headers), mid);
    WithinBudget(ts, Entered(ts, n, queue, mid, headers), after, queue, mid, Budget(ts, queue, FromHeaders(headers)));
  }
}
