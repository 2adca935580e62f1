/** The bound on handlings is exact: wherever its condition fails, a run in which only functions fail exceeds it. */
module DeliveryExact {
  import opened Attempts
  import opened Delivery
  import opened DeliveryPlaces
  import opened DeliveryNet
  import opened DeliveryBound
  import HeaderCount

  // ----- runs of one trigger as runs of all -----

  function Lift(i: nat, events: seq<Event>): seq<NetEvent> {
    if events == [] then [] else [At(i, events[0])] + Lift(i, events[1..])
  }

  lemma {:induction false} LiftRun(ts: seq<Trigger>, n: Net, i: nat, events: seq<Event>, queue: string, mid: nat)
    requires Fits(ts, n) && i < |ts| && NoProduce(events) && SmoothRun(ts[i], View(ts, n, i), events, mid)
    ensures var m := NetRun(ts, n, Lift(i, events));
            && View(ts, m, i) == Run(ts[i], View(ts, n, i), events)
            && (forall j | 0 <= j < |ts| && j != i :: m.clients[j] == n.clients[j])
            && (forall name :: name != ts[i].queue && name != ts[i].dlq ==> QueueOf(m, name) == QueueOf(n, name))
    ensures NetSmoothRun(ts, n, Lift(i, events), mid)
    ensures HandlingsAt(ts, n, Lift(i, events), queue, mid)
         == if ts[i].queue == queue then Handlings(ts[i], View(ts, n, i), events, mid) else 0
    decreases |events|
  {
    if events != [] {
      hide Step, Smooth, Handles;
      var e := events[0];
      var m := NetStep(ts, n, At(i, e));
      OwnView(ts, n, i, e);
      assert Lift(i, events)[0] == At(i, e) && Lift(i, events)[1..] == Lift(i, events[1..]);
      LiftRun(ts, m, i, events[1..], queue, mid);
    }
  }

  lemma {:induction false} NetTogether(
      ts: seq<Trigger>, n: Net, a: seq<NetEvent>, b: seq<NetEvent>, queue: string, mid: nat)
    requires Fits(ts, n) && NetSmoothRun(ts, n, a, mid) && NetSmoothRun(ts, NetRun(ts, n, a), b, mid)
    ensures NetSmoothRun(ts, n, a + b, mid) && NetRun(ts, n, a + b) == NetRun(ts, NetRun(ts, n, a), b)
    ensures HandlingsAt(ts, n, a + b, queue, mid)
         == HandlingsAt(ts, n, a, queue, mid) + HandlingsAt(ts, NetRun(ts, n, a), b, queue, mid)
    decreases |a|
  {
    if a == [] {
      assert a + b == b;
    } else {
      hide NetStep, NetSmooth, HandlesAt;
      assert (a + b)[0] == a[0] && (a + b)[1..] == a[1..] + b;
      NetTogether(ts, NetStep(ts, n, a[0]), a[1..], b, queue, mid);
    }
  }

  // ----- one message on its way through the triggers, failing everywhere -----

  /** The copy stands in this queue; nothing else is anywhere. */
  ghost predicate AloneAt(ts: seq<Trigger>, n: Net, queue: string, copy: Copy)
    requires Fits(ts, n)
  {
    && (forall i | 0 <= i < |ts| :: Idle(View(ts, n, i)))
    && forall name :: QueueOf(n, name) == if name == queue then [copy] else []
  }

  /** Limits are Go ints, and normalised triggers have a positive concurrency. */
  predicate Sane(ts: seq<Trigger>) {
    forall i | 0 <= i < |ts| :: ts[i].maxAttempts < TWO63 && ts[i].maxConcurrency > 0
  }

  function Target(t: Trigger, copy: Copy): string { if SentAway(t, copy) then t.dlq else t.queue }

  predicate Follows(next: Copy, copy: Copy) {
    next.mid == copy.mid && FromHeaders(next.headers) == NextAttempts(FromHeaders(copy.headers))
  }

  lemma TryOnce(ts: seq<Trigger>, n: Net, i: nat, copy: Copy, queue: string)
    returns (events: seq<NetEvent>, next: Copy)
    requires Fits(ts, n) && i < |ts| && Sane(ts) && AloneAt(ts, n, ts[i].queue, copy)
    ensures NetSmoothRun(ts, n, events, copy.mid)
    ensures HandlingsAt(ts, n, events, queue, copy.mid) == if ts[i].queue == queue then 1 else 0
    ensures AloneAt(ts, NetRun(ts, n, events), Target(ts[i], copy), next) && Follows(next, copy)
  {
    hide Run, SmoothRun, Handlings, Follows, Idle, NextAttempts, FromHeaders;
    var s := View(ts, n, i);
    FollowsIs(copy);
    next := FailsOnce(ts[i], s, copy);
    FailureProducesNothing(s.nextTag);
    LiftRun(ts, n, i, Failure(s.nextTag), queue, copy.mid);
    events := Lift(i, Failure(s.nextTag));
    var m := NetRun(ts, n, events);
    assert View(ts, m, i).queue == QueueOf(m, ts[i].queue);
    assert ts[i].dlq != ts[i].queue ==> View(ts, m, i).dlq == QueueOf(m, ts[i].dlq) && s.dlq == [];
    forall j | 0 <= j < |ts| ensures Idle(View(ts, m, j)) {
      if j != i { SameIdle(View(ts, n, j), View(ts, m, j)); }
    }
  }

  lemma FollowsIs(copy: Copy)
    ensures forall next: Copy :: Follows(next, copy)
              <==> next.mid == copy.mid && FromHeaders(next.headers) == NextAttempts(FromHeaders(copy.headers))
  {
  }

  lemma SameIdle(s: Sys, u: Sys)
    requires Idle(s) && u.works == s.works && u.received == s.received && u.unacked == s.unacked
    ensures Idle(u)
  {
  }

  /** A trigger that passes messages on dead-letters a small copy after enough failures. */
  lemma {:induction false} PassLink(ts: seq<Trigger>, n: Net, i: nat, copy: Copy, queue: string)
    returns (events: seq<NetEvent>, next: Copy)
    requires Fits(ts, n) && i < |ts| && Sane(ts) && Passes(ts[i]) && Small(copy) && AloneAt(ts, n, ts[i].queue, copy)
    ensures NetSmoothRun(ts, n, events, copy.mid)
    ensures AloneAt(ts, NetRun(ts, n, events), ts[i].dlq, next) && next.mid == copy.mid && Small(next)
    decreases TWO31 - FromHeaders(copy.headers)
  {
    hide NetSmoothRun, NetRun, AloneAt, FromHeaders;
    events, next := TryOnce(ts, n, i, copy, queue);
    if Verdict(ts[i], FromHeaders(copy.headers), FAILS).Retry? {
      var rest;
      rest, next := PassLink(ts, NetRun(ts, n, events), i, next, queue);
      NetTogether(ts, n, events, rest, queue, copy.mid);
      events := events + rest;
    }
  }

  lemma {:induction false} PassChain(
      ts: seq<Trigger>, n: Net, from: string, copy: Copy, queue: string, path: seq<nat>)
    returns (events: seq<NetEvent>, next: Copy)
    requires Fits(ts, n) && Sane(ts) && Chain(ts, from, queue, path) && Small(copy) && AloneAt(ts, n, from, copy)
    ensures NetSmoothRun(ts, n, events, copy.mid)
    ensures AloneAt(ts, NetRun(ts, n, events), queue, next) && next.mid == copy.mid && Small(next)
    decreases |path|
  {
    if path == [] {
      events, next := [], copy;
    } else {
      hide NetSmoothRun, NetRun, AloneAt, Small, Passes;
      events, next := PassLink(ts, n, path[0], copy, queue);
      var rest;
      rest, next := PassChain(ts, NetRun(ts, n, events), ts[path[0]].dlq, next, queue, path[1..]);
      NetTogether(ts, n, events, rest, queue, copy.mid);
      events := events + rest;
    }
  }

  /** A failing message comes back to the queue of this consumer, however often it fails. */
  ghost predicate Recurs(ts: seq<Trigger>, i: nat, count: Int64)
    requires i < |ts|
  {
    Leads(ts, ts[i].dlq, ts[i].queue) || Endless(ts[i], count)
  }

  /** Once round: at least one handling at the queue, and the message is there again. */
  lemma Round(ts: seq<Trigger>, n: Net, i: nat, copy: Copy) returns (events: seq<NetEvent>, next: Copy)
    requires Fits(ts, n) && i < |ts| && Sane(ts) && AloneAt(ts, n, ts[i].queue, copy)
    requires Recurs(ts, i, FromHeaders(copy.headers))
    ensures NetSmoothRun(ts, n, events, copy.mid) && HandlingsAt(ts, n, events, ts[i].queue, copy.mid) >= 1
    ensures AloneAt(ts, NetRun(ts, n, events), ts[i].queue, next)
    ensures next.mid == copy.mid && Recurs(ts, i, FromHeaders(next.headers))
  {
    hide NetSmoothRun, NetRun, AloneAt, FromHeaders, Leads, HandlingsAt, Endless, NextAttempts;
    var queue := ts[i].queue;
    events, next := TryOnce(ts, n, i, copy, queue);
    if Endless(ts[i], FromHeaders(copy.headers)) {
      EndlessGoesOn(ts[i], FromHeaders(copy.headers));
    } else if SentAway(ts[i], copy) {
      FollowsSmall(next, copy);
      var path := PathOf(ts, ts[i].dlq, queue);
      var rest;
      rest, next := PassChain(ts, NetRun(ts, n, events), ts[i].dlq, next, queue, path);
      NetTogether(ts, n, events, rest, queue, copy.mid);
      events := events + rest;
    }
  }

  lemma PathOf(ts: seq<Trigger>, from: string, to: string) returns (path: seq<nat>)
    requires Leads(ts, from, to)
    ensures Chain(ts, from, to, path)
  {
    path :| Chain(ts, from, to, path);
  }

  lemma FollowsSmall(next: Copy, copy: Copy)
    requires Follows(next, copy)
    ensures Small(next)
  {
  }

  lemma {:induction false} Rounds(ts: seq<Trigger>, n: Net, i: nat, copy: Copy, times: nat)
    returns (events: seq<NetEvent>)
    requires Fits(ts, n) && i < |ts| && Sane(ts) && AloneAt(ts, n, ts[i].queue, copy)
    requires Recurs(ts, i, FromHeaders(copy.headers))
    ensures NetSmoothRun(ts, n, events, copy.mid) && HandlingsAt(ts, n, events, ts[i].queue, copy.mid) >= times
    decreases times
  {
    events := [];
    if times > 0 {
      hide NetSmoothRun, NetRun, AloneAt, FromHeaders, HandlingsAt, Recurs;
      var next;
      events, next := Round(ts, n, i, copy);
      var rest := Rounds(ts, NetRun(ts, n, events), i, next, times - 1);
      NetTogether(ts, n, events, rest, ts[i].queue, copy.mid);
      events := events + rest;
    }
  }

  lemma EnteredAlone(ts: seq<Trigger>, queue: string, mid: nat, headers: map<string, Header>)
    ensures AloneAt(ts, Entered(ts, Start(ts), queue, mid, headers), queue, Copy(mid, headers))
  {
  }

  /** Whenever a consumer of the queue has no limit, cannot count up to it, or gets its dead letters back, a run exceeds
      the budget in which the functions fail, and nothing else does. */
  lemma BoundExceeded(ts: seq<Trigger>, i: nat, mid: nat, headers: map<string, Header>)
    returns (events: seq<NetEvent>)
    requires Sane(ts) && i < |ts|
    requires var count := FromHeaders(headers);
             !(Limited(ts[i]) && Countable(ts[i], count) && !Leads(ts, ts[i].dlq, ts[i].queue))
    ensures var n := Entered(ts, Start(ts), ts[i].queue, mid, headers);
            && NetSmoothRun(ts, n, events, mid)
            && HandlingsAt(ts, n, events, ts[i].queue, mid) > Budget(ts, ts[i].queue, FromHeaders(headers))
  {
    var queue, copy, count := ts[i].queue, Copy(mid, headers), FromHeaders(headers);
    var n := Entered(ts, Start(ts), queue, mid, headers);
    EnteredAlone(ts, queue, mid, headers);
    if Recurs(ts, i, count) {
      events := Rounds(ts, n, i, copy, Budget(ts, queue, count) + 1);
    } else {
      hide NetSmoothRun, NetRun, AloneAt, FromHeaders, HandlingsAt, Leads, Follows, Verdict;
      assert Budget(ts, queue, count) == 1;
      Overflows(ts[i], count, [FAILS]);
      var next, last, rest;
      events, next := TryOnce(ts, n, i, copy, queue);
      FollowsIs(copy);
      rest, last := TryOnce(ts, NetRun(ts, n, events), i, next, queue);
      NetTogether(ts, n, events, rest, queue, mid);
      events := events + rest;
    }
  }

  /** The state in which the message enters the queue after the run. */
  function EnteredAfter(ts: seq<Trigger>, before: seq<NetEvent>, queue: string, mid: nat,
                        headers: map<string, Header>): (n: Net)
    ensures Fits(ts, n)
  {
    Entered(ts, NetRun(ts, Start(ts), before), queue, mid, headers)
  }

  /** Over all interleavings of all triggers that are smooth for the message, the handlings at its queue stay within the
      bound. */
  ghost predicate AlwaysBounded(ts: seq<Trigger>, queue: string, mid: nat, headers: map<string, Header>, bound: nat) {
    forall before, after |
      mid !in NetRun(ts, Start(ts), before).sent
      && NetSmoothRun(ts, EnteredAfter(ts, before, queue, mid, headers), after, mid) ::
      HandlingsAt(ts, EnteredAfter(ts, before, queue, mid, headers), after, queue, mid) <= bound
  }

  /** A message is handled at its queue at most as often as the largest bound of the consumers says, over all
      interleavings, if and only if every consumer has a limit with a dead-letter queue, can count up to it, and no
      chain of dead letters leads from there back to the queue. */
  lemma BoundedExactly(ts: seq<Trigger>, queue: string, mid: nat, headers: map<string, Header>)
    requires Sane(ts)
    ensures AlwaysBounded(ts, queue, mid, headers, Budget(ts, queue, FromHeaders(headers)))
            <==> Ends(ts, queue, FromHeaders(headers))
  {
    hide NetRun, NetSmoothRun, HandlingsAt, Budget, FromHeaders, Entered;
    var count := FromHeaders(headers);
    if Ends(ts, queue, count) {
      forall before, after |
        mid !in NetRun(ts, Start(ts), before).sent
        && NetSmoothRun(ts, EnteredAfter(ts, before, queue, mid, headers), after, mid)
        ensures HandlingsAt(ts, EnteredAfter(ts, before, queue, mid, headers), after, queue, mid)
             <= Budget(ts, queue, count)
      {
        HandledWithinBound(ts, queue, before, mid, headers, after);
      }
    } else {
      var i: nat :| Consumes(ts, i, queue)
                    && !(Limited(ts[i]) && Countable(ts[i], count) && !Leads(ts, ts[i].dlq, queue));
      var after := BoundExceeded(ts, i, mid, headers);
      NothingRun(ts, Start(ts));
      assert EnteredAfter(ts, [], queue, mid, headers) == Entered(ts, Start(ts), queue, mid, headers);
    }
  }

  lemma NothingRun(ts: seq<Trigger>, n: Net)
    requires Fits(ts, n)
    ensures NetRun(ts, n, []) == n
  {
  }

  /** The only consumer of its queue: the message is handled at most max(1, MaxAttempts - a) times if and only if the
      trigger has a limit with a dead-letter queue, can count up to it, and gets no dead letters back. */
  lemma BoundedForOne(ts: seq<Trigger>, i: nat, mid: nat, headers: map<string, Header>)
    requires Sane(ts) && i < |ts| && forall j | 0 <= j < |ts| && j != i :: ts[j].queue != ts[i].queue
    ensures AlwaysBounded(ts, ts[i].queue, mid, headers, Bound(ts[i], FromHeaders(headers)))
            <==> Limited(ts[i]) && Countable(ts[i], FromHeaders(headers)) && !Leads(ts, ts[i].dlq, ts[i].queue)
  {
    hide AlwaysBounded, Leads, Limited, Countable, FromHeaders;
    BoundedExactly(ts, ts[i].queue, mid, headers);
    assert Consumes(ts, i, ts[i].queue);
    assert Budget(ts, ts[i].queue, FromHeaders(headers)) == Bound(ts[i], FromHeaders(headers));
  }

  /** Two triggers whose dead-letter queues cross: each failure of one is work for the other, without end. */
  lemma CrossingTriggers(a: Trigger, b: Trigger, mid: nat, headers: map<string, Header>, bound: nat)
    returns (events: seq<NetEvent>)
    requires Sane([a, b]) && Passes(a) && Passes(b) && a.dlq == b.queue && b.dlq == a.queue
    ensures var n := Entered([a, b], Start([a, b]), a.queue, mid, headers);
            NetSmoothRun([a, b], n, events, mid) && HandlingsAt([a, b], n, events, a.queue, mid) >= bound
  {
    var ts := [a, b];
    assert [1][1..] == [] && Chain(ts, a.queue, a.queue, []);
    assert Chain(ts, a.dlq, a.queue, [1]);
    EnteredAlone(ts, a.queue, mid, headers);
    events := Rounds(ts, Entered(ts, Start(ts), a.queue, mid, headers), 0, Copy(mid, headers), bound);
  }

  // ----- the bound is reached -----

  /** Failing all the time, the message is handled exactly as often as the trigger's bound says, and then stands alone
      in its dead-letter queue. */
  lemma {:induction false} FailsToTheEnd(ts: seq<Trigger>, n: Net, i: nat, copy: Copy)
    returns (events: seq<NetEvent>, dead: Copy)
    requires Fits(ts, n) && i < |ts| && Sane(ts) && AloneAt(ts, n, ts[i].queue, copy)
    requires Limited(ts[i]) && ts[i].dlq != ts[i].queue
    requires Countable(ts[i], FromHeaders(copy.headers)) && FromHeaders(copy.headers) >= -TWO31
    ensures NetSmoothRun(ts, n, events, copy.mid)
    ensures HandlingsAt(ts, n, events, ts[i].queue, copy.mid) == Bound(ts[i], FromHeaders(copy.headers))
    ensures AloneAt(ts, NetRun(ts, n, events), ts[i].dlq, dead) && dead.mid == copy.mid
    decreases Bound(ts[i], FromHeaders(copy.headers))
  {
    hide NetSmoothRun, NetRun, AloneAt, FromHeaders, HandlingsAt;
    var count := FromHeaders(copy.headers);
    events, dead := TryOnce(ts, n, i, copy, ts[i].queue);
    if !SentAway(ts[i], copy) {
      NextIsHigher(count);
      assert NextAttempts(count) == count + 1;
      var rest;
      rest, dead := FailsToTheEnd(ts, NetRun(ts, n, events), i, dead);
      NetTogether(ts, n, events, rest, ts[i].queue, copy.mid);
      events := events + rest;
    }
  }

  /** So the bound is the least one, for every count that the trigger can count from. */
  lemma BoundReached(ts: seq<Trigger>, i: nat, mid: nat, headers: map<string, Header>)
    returns (events: seq<NetEvent>, dead: Copy)
    requires Sane(ts) && i < |ts| && Limited(ts[i]) && ts[i].dlq != ts[i].queue
    requires Countable(ts[i], FromHeaders(headers)) && FromHeaders(headers) >= -TWO31
    ensures var n := Entered(ts, Start(ts), ts[i].queue, mid, headers);
            && NetSmoothRun(ts, n, events, mid)
            && HandlingsAt(ts, n, events, ts[i].queue, mid) == Bound(ts[i], FromHeaders(headers))
            && AloneAt(ts, NetRun(ts, n, events), ts[i].dlq, dead) && dead.mid == mid
  {
    hide AloneAt, Countable, Bound, FromHeaders;
    var n := Entered(ts, Start(ts), ts[i].queue, mid, headers);
    EnteredAlone(ts, ts[i].queue, mid, headers);
    events, dead := FailsToTheEnd(ts, n, i, Copy(mid, headers));
  }

  /** A new message, without the header, to a queue's only consumer with a limit up to 2^31 whose dead letters do not
      come back: it is handled at most MaxAttempts times, and exactly so often when the function always fails. */
  lemma NewMessageIsTried(ts: seq<Trigger>, i: nat, mid: nat, headers: map<string, Header>)
    returns (events: seq<NetEvent>, dead: Copy)
    requires Sane(ts) && i < |ts| && (forall j | 0 <= j < |ts| && j != i :: ts[j].queue != ts[i].queue)
    requires 0 < ts[i].maxAttempts <= 0x8000_0000 && ts[i].dlq != "" && !Leads(ts, ts[i].dlq, ts[i].queue)
    requires "x-faas-attempts" !in headers
    ensures AlwaysBounded(ts, ts[i].queue, mid, headers, ts[i].maxAttempts)
    ensures var n := Entered(ts, Start(ts), ts[i].queue, mid, headers);
            && NetSmoothRun(ts, n, events, mid)
            && HandlingsAt(ts, n, events, ts[i].queue, mid) == ts[i].maxAttempts
            && AloneAt(ts, NetRun(ts, n, events), ts[i].dlq, dead) && dead.mid == mid
  {
    hide AlwaysBounded, Leads, AloneAt, FromHeaders;
    HeaderCount.CountReads(headers, 0, 0);
    BoundedForOne(ts, i, mid, headers);
    LeadsToItself(ts, ts[i].queue);
    events, dead := BoundReached(ts, i, mid, headers);
  }

  // ----- and where a message ends -----

  ghost predicate AllTracked(ts: seq<Trigger>, n: Net, mid: nat)
    requires Fits(ts, n)
  {
    forall i | 0 <= i < |ts| :: Tracked(View(ts, n, i), mid)
  }

  lemma SameTracked(s: Sys, u: Sys, mid: nat)
    requires Tracked(s, mid) && u.unacked == s.unacked && u.received == s.received && u.works == s.works
    ensures Tracked(u, mid)
  {
    assert forall tag :: InHand(s, tag) ==> InHand(u, tag);
  }

  lemma {:induction false} RunTracked(ts: seq<Trigger>, n: Net, events: seq<NetEvent>, mid: nat)
    requires Fits(ts, n) && NetSmoothRun(ts, n, events, mid) && NetReady(ts, n, mid) && AllTracked(ts, n, mid)
    ensures AllTracked(ts, NetRun(ts, n, events), mid)
    decreases |events|
  {
    if events != [] {
      hide Step, Ready, Smooth, Tracked;
      var e, m := events[0], NetStep(ts, n, events[0]);
      forall j | 0 <= j < |ts| ensures Tracked(View(ts, m, j), mid) {
        if Acts(ts, e) && e.client == j {
          OwnView(ts, n, j, e.event);
          StepTracked(ts[j], View(ts, n, j), e.event, mid);
        } else {
          if Acts(ts, e) { OtherView(ts, n, e.client, e.event, j); }
          SameTracked(View(ts, n, j), View(ts, m, j), mid);
        }
      }
      NetStepReady(ts, n, e, mid);
      RunTracked(ts, m, events[1..], mid);
    }
  }

  /** In a run that is smooth for the message: once no trigger holds a copy or has one in its queue, the message was run
      successfully, or it stands in a dead-letter queue that no trigger consumes. */
  lemma EndsAckedOrDead(ts: seq<Trigger>, events: seq<NetEvent>, mid: nat)
    requires NetSmoothRun(ts, Start(ts), events, mid) && mid in NetRun(ts, Start(ts), events).sent
    requires var n := NetRun(ts, Start(ts), events);
             forall i | 0 <= i < |ts| :: (forall p :: !Carries(View(ts, n, i), p, mid))
                                         && (forall pid :: !WorksOn(View(ts, n, i), pid, mid))
    ensures var n := NetRun(ts, Start(ts), events);
            mid in n.done || exists name :: Has(QueueOf(n, name), mid) && forall i: nat :: !Consumes(ts, i, name)
  {
    hide Has, Safe, Tracked, Carries, WorksOn, NetRun, Agree;
    var n := NetRun(ts, Start(ts), events);
    EndsTracked(ts, events, mid);
    if mid in n.done {
    } else if name :| name in n.queues && Has(n.queues[name], mid) {
      assert Has(QueueOf(n, name), mid);
      forall i: nat ensures !Consumes(ts, i, name) {
        if Consumes(ts, i, name) { var k := InQueue(View(ts, n, i), mid); }
      }
    } else {
      var i, tag :| 0 <= i < |ts| && Safe(View(ts, n, i), tag, mid);
      InHands(View(ts, n, i), tag, mid);
    }
  }

  lemma EndsTracked(ts: seq<Trigger>, events: seq<NetEvent>, mid: nat)
    requires NetSmoothRun(ts, Start(ts), events, mid) && mid in NetRun(ts, Start(ts), events).sent
    ensures var n := NetRun(ts, Start(ts), events);
            Kept(ts, n, mid) && forall i | 0 <= i < |ts| :: Tracked(View(ts, n, i), mid) && Agree(View(ts, n, i))
  {
    hide NetRun, NetSmoothRun, Kept, NetReady, Tracked, Agree, TagsOld, OneEach;
    StartReady(ts, mid);
    StartLinked(ts);
    StartTracked(ts, mid);
    RunTracked(ts, Start(ts), events, mid);
    RunKept(ts, Start(ts), events);
  }

  lemma StartTracked(ts: seq<Trigger>, mid: nat)
    ensures AllTracked(ts, Start(ts), mid)
  {
  }

  lemma InQueue(s: Sys, mid: nat) returns (k: nat)
    requires Has(s.queue, mid)
    ensures Carries(s, AtQueue(k), mid)
  {
    k :| 0 <= k < |s.queue| && s.queue[k].mid == mid;
  }

  /** An unacked delivery of the message is received or worked on. */
  lemma InHands(s: Sys, tag: nat, mid: nat)
    requires Safe(s, tag, mid) && Tracked(s, mid) && Agree(s)
    ensures (exists p :: Carries(s, p, mid)) || (exists pid :: WorksOn(s, pid, mid))
  {
    assert InHand(s, tag);
    if tag in s.received {
      assert Carries(s, AtTag(tag), mid);
    } else {
      var pid :| pid in s.works && s.works[pid].tag == tag;
      assert WorksOn(s, pid, mid);
    }
  }
}
