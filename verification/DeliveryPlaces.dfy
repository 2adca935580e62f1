/** Where the copies of one message are, seen from one trigger: in its queue, in the deliveries it received and with its
    goroutines; and how each step moves them while nothing fails for that message. */
module DeliveryPlaces {
  import opened Attempts
  import opened Delivery

  /** The event acts on a copy of the message. */
  predicate Concerns(s: Sys, e: Event, mid: nat) {
    match e
    case Returned(tag) => tag in s.unacked && s.unacked[tag].mid == mid
    case Handled(pid, _) => WorksOn(s, pid, mid)
    case Waited(pid, _) => WorksOn(s, pid, mid)
    case Published(pid, _, _) => WorksOn(s, pid, mid)
    case Acked(pid, _) => WorksOn(s, pid, mid)
    case Nacked(pid, _) => WorksOn(s, pid, mid)
    case _ => false
  }

  predicate WorksOn(s: Sys, pid: nat, mid: nat) {
    pid in s.works && s.works[pid].copy.mid == mid
  }

  /** Nothing fails but the function itself: no release, confirm or ack, and no delivery returns. */
  predicate Succeeds(e: Event) {
    match e
    case Handled(_, call) => call.Ran? ==> call.releaseErr.None?
    case Waited(_, canceled) => !canceled
    case Published(_, stored, confirmed) => stored && confirmed
    case Acked(_, arrives) => arrives
    case Returned(_) => false
    case _ => true
  }

  /** Whatever happens to other messages, nothing fails for this one. */
  predicate Smooth(s: Sys, e: Event, mid: nat) {
    Concerns(s, e, mid) ==> Succeeds(e)
  }

  predicate SmoothRun(t: Trigger, s: Sys, events: seq<Event>, mid: nat)
    decreases |events|
  {
    events == [] || (Smooth(s, events[0], mid) && SmoothRun(t, Step(t, s, events[0]), events[1..], mid))
  }

  /** Whether this step is the end of a handling of the message. */
  predicate Handles(s: Sys, e: Event, mid: nat) {
    e.Handled? && In(s, e.pid, Handling) && s.works[e.pid].copy.mid == mid
  }

  function Handlings(t: Trigger, s: Sys, events: seq<Event>, mid: nat): nat
    decreases |events|
  {
    if events == [] then 0
    else (if Handles(s, events[0], mid) then 1 else 0) + Handlings(t, Step(t, s, events[0]), events[1..], mid)
  }

  /** Where a message that will be handled again can be. */
  datatype Place = AtQueue(index: nat) | AtTag(tag: nat) | AtWork(pid: nat)

  predicate AtWorkPhase(phase: Phase) {
    phase.Handling? || phase.BackingOff? || (phase.Confirming? && !phase.dead)
  }

  predicate Holds(s: Sys, p: Place) {
    match p
    case AtQueue(index) => index < |s.queue|
    case AtTag(tag) => tag in s.received
    case AtWork(pid) => pid in s.works && AtWorkPhase(s.works[pid].phase)
  }

  function CopyAt(s: Sys, p: Place): Copy
    requires Holds(s, p)
  {
    match p
    case AtQueue(index) => s.queue[index]
    case AtTag(tag) => s.received[tag].copy
    case AtWork(pid) => s.works[pid].copy
  }

  predicate Carries(s: Sys, p: Place, mid: nat) {
    Holds(s, p) && CopyAt(s, p).mid == mid
  }

  /** The count with which the next handling will start. */
  function NextCount(s: Sys, p: Place): Int64
    requires Holds(s, p)
  {
    var count := FromHeaders(CopyAt(s, p).headers);
    if p.AtWork? && !s.works[p.pid].phase.Handling? then NextAttempts(count) else count
  }

  ghost predicate NoNack(s: Sys, mid: nat) {
    forall pid :: WorksOn(s, pid, mid) ==> !s.works[pid].phase.Nacking?
  }

  /** All copies are of messages that were sent. */
  predicate Known(s: Sys) {
    && (forall i :: 0 <= i < |s.queue| ==> s.queue[i].mid in s.sent)
    && (forall tag :: tag in s.unacked ==> s.unacked[tag].mid in s.sent)
    && (forall tag :: tag in s.received ==> s.received[tag].copy.mid in s.sent)
    && (forall pid :: pid in s.works ==> s.works[pid].copy.mid in s.sent)
  }

  /** What the induction carries along. */
  ghost predicate Ready(s: Sys, mid: nat) {
    TagsOld(s) && OneEach(s) && Agree(s) && NoNack(s, mid) && Known(s)
  }

  /** Before a step, a place stood where it stands after the step, unless the step moved the message there. */
  function Origin(s: Sys, e: Event, p: Place): Place {
    match e
    case Deliver(index) =>
      if index >= |s.queue| then p
      else if p.AtQueue? && p.index >= index then AtQueue(p.index + 1)
      else if p == AtTag(s.nextTag) then AtQueue(index)
      else p
    case Begin(pid, tag) => if p == AtWork(pid) && pid !in s.works then AtTag(tag) else p
    case Published(pid, _, _) => if p.AtQueue? && p.index == |s.queue| then AtWork(pid) else p
    case _ => p
  }

  /** Where the message is after a smooth step it comes from one place before, with the same next count. */
  lemma PlaceBefore(t: Trigger, s: Sys, e: Event, p: Place, mid: nat)
    requires t.dlq != t.queue && Smooth(s, e, mid) && Ready(s, mid) && !e.Produce? && !e.Handled?
    requires Carries(Step(t, s, e), p, mid)
    ensures var u := Step(t, s, e); var o := Origin(s, e, p);
            Carries(s, o, mid) && NextCount(u, p) == NextCount(s, o)
  {
    hide AfterHandler, Slots, FromHeaders, NextAttempts, NextCopy, Smooth, TagsOld, OneEach, Agree, NoNack, Known;
    match e
    case Published(pid, stored, confirmed) => PublishedPlace(t, s, pid, stored, confirmed, p, mid);
    case Nacked(pid, arrives) => RequeuedPlace(t, s, e, p, mid);
    case Returned(tag) => RequeuedPlace(t, s, e, p, mid);
    case Waited(_, _) => WorkPlace(t, s, e, p, mid);
    case Acked(_, _) => WorkPlace(t, s, e, p, mid);
    case _ =>
  }

  /** The end of a backoff moves nothing, nor does an ack. */
  lemma WorkPlace(t: Trigger, s: Sys, e: Event, p: Place, mid: nat)
    requires (e.Waited? || e.Acked?) && Smooth(s, e, mid) && Carries(Step(t, s, e), p, mid)
    ensures Carries(s, p, mid) && NextCount(Step(t, s, e), p) == NextCount(s, p)
  {
    hide FromHeaders, NextAttempts;
  }

  lemma RequeuedPlace(t: Trigger, s: Sys, e: Event, p: Place, mid: nat)
    requires (e.Nacked? || e.Returned?) && Smooth(s, e, mid) && NoNack(s, mid) && Agree(s)
    requires Carries(Step(t, s, e), p, mid)
    ensures Carries(s, p, mid) && NextCount(Step(t, s, e), p) == NextCount(s, p)
  {
    hide FromHeaders, NextAttempts;
  }

  lemma PublishedPlace(t: Trigger, s: Sys, pid: nat, stored: bool, confirmed: bool, p: Place, mid: nat)
    requires t.dlq != t.queue && Smooth(s, Published(pid, stored, confirmed), mid)
    requires Carries(Step(t, s, Published(pid, stored, confirmed)), p, mid)
    ensures var e := Published(pid, stored, confirmed); var u := Step(t, s, e); var o := Origin(s, e, p);
            Carries(s, o, mid) && NextCount(u, p) == NextCount(s, o)
  {
    if p.AtQueue? && p.index == |s.queue| {
      NextCopyCount(s.works[pid].copy, s.works[pid].phase.reason);
    }
    hide FromHeaders, NextAttempts;
  }

  lemma NextCopyCount(copy: Copy, reason: string)
    ensures FromHeaders(NextCopy(copy, reason).headers) == NextAttempts(FromHeaders(copy.headers))
  {
  }

  /** Different places come from different places. */
  lemma OriginsDiffer(t: Trigger, s: Sys, e: Event, p: Place, q: Place, mid: nat)
    requires t.dlq != t.queue && Smooth(s, e, mid) && Ready(s, mid) && !e.Produce? && !e.Handled?
    requires Carries(Step(t, s, e), p, mid) && Carries(Step(t, s, e), q, mid) && Origin(s, e, p) == Origin(s, e, q)
    ensures p == q
  {
    hide AfterHandler, Slots, FromHeaders, NextAttempts;
  }

  /** The end of a handling moves no message; only its own goroutine's next count changes. */
  lemma HandledPlace(t: Trigger, s: Sys, pid: nat, call: Call, p: Place)
    requires Holds(Step(t, s, Handled(pid, call)), p)
    ensures var u := Step(t, s, Handled(pid, call));
            && Holds(s, p) && CopyAt(u, p) == CopyAt(s, p)
            && (p != AtWork(pid) || !In(s, pid, Handling) ==> NextCount(u, p) == NextCount(s, p))
  {
    hide AfterHandler, FromHeaders, NextAttempts;
  }

  lemma StepNoNack(t: Trigger, s: Sys, e: Event, mid: nat)
    requires Smooth(s, e, mid) && NoNack(s, mid)
    ensures NoNack(Step(t, s, e), mid)
  {
    hide FromHeaders, Slots, NextCopy;
  }

  lemma StepKnown(t: Trigger, s: Sys, e: Event)
    requires Known(s)
    ensures Known(Step(t, s, e)) && s.sent <= Step(t, s, e).sent
  {
    hide AfterHandler, Slots, Publishing;
  }

  lemma StepReady(t: Trigger, s: Sys, e: Event, mid: nat)
    requires Smooth(s, e, mid) && Ready(s, mid)
    ensures Ready(Step(t, s, e), mid) && s.sent <= Step(t, s, e).sent
  {
    hide Step, TagsOld, OneEach, Agree, NoNack, Known, Smooth;
    StepTags(t, s, e);
    StepAgree(t, s, e);
    StepNoNack(t, s, e, mid);
    StepKnown(t, s, e);
  }

  lemma {:induction false} HandlingsTogether(t: Trigger, s: Sys, a: seq<Event>, b: seq<Event>, mid: nat)
    requires SmoothRun(t, s, a, mid) && SmoothRun(t, Run(t, s, a), b, mid)
    ensures SmoothRun(t, s, a + b, mid)
    ensures Handlings(t, s, a + b, mid) == Handlings(t, s, a, mid) + Handlings(t, Run(t, s, a), b, mid)
    ensures Run(t, s, a + b) == Run(t, Run(t, s, a), b)
    decreases |a|
  {
    if a == [] {
      assert a + b == b;
    } else {
      assert (a + b)[0] == a[0] && (a + b)[1..] == a[1..] + b;
      HandlingsTogether(t, Step(t, s, a[0]), a[1..], b, mid);
    }
  }

  // ----- one failing handling of the only copy -----

  predicate Idle(s: Sys) { s.works == map[] && s.received == map[] && s.unacked == map[] }

  /** Only this copy is in the queue, and nobody works. */
  predicate Alone(s: Sys, copy: Copy) { s.queue == [copy] && Idle(s) }

  /** A failed handling of the copy sends it to a dead-letter queue other than the trigger's own. */
  predicate SentAway(t: Trigger, copy: Copy) {
    t.dlq != t.queue && Verdict(t, FromHeaders(copy.headers), FAILS).Dlq?
  }

  /** The copy is delivered and handled, and the handling fails. */
  function Attempt(tag: nat): seq<Event> { [Deliver(0), Begin(0, tag), Handled(0, FAILS)] }

  /** Then the next copy is published and this one acked. */
  function Republication(): seq<Event> { [Waited(0, false), Published(0, true, true), Event.Acked(0, true)] }

  lemma AttemptFails(t: Trigger, s: Sys, copy: Copy)
    requires Alone(s, copy) && t.maxConcurrency > 0
    ensures SmoothRun(t, s, Attempt(s.nextTag), copy.mid) && Handlings(t, s, Attempt(s.nextTag), copy.mid) == 1
    ensures var u := Run(t, s, Attempt(s.nextTag));
            && u.queue == [] && u.received == map[] && u.unacked == map[s.nextTag := copy] && u.epoch == s.epoch
            && u.dlq == s.dlq
            && u.works == map[0 := Work(s.nextTag, s.epoch, copy, AfterHandler(t, copy, FAILS))]
  {
    hide AfterHandler;
    var a := Step(t, s, Deliver(0));
    assert Slots(a) == {};
    var b := Step(t, a, Begin(0, s.nextTag));
    var c := Step(t, b, Handled(0, FAILS));
    assert a.queue == [] && a.received == map[s.nextTag := Received(copy, s.epoch)];
    assert b.works == map[0 := Work(s.nextTag, s.epoch, copy, Handling)] && b.received == map[];
    hide Step;
    var events := Attempt(s.nextTag);
    assert events[1..] == [Begin(0, s.nextTag), Handled(0, FAILS)] && events[1..][1..] == [Handled(0, FAILS)];
    assert Run(t, b, [Handled(0, FAILS)]) == Run(t, c, []);
    assert Run(t, a, events[1..]) == Run(t, b, events[1..][1..]);
    assert Handlings(t, b, [Handled(0, FAILS)], copy.mid) == 1 + Handlings(t, c, [], copy.mid);
    assert Handlings(t, a, events[1..], copy.mid) == Handlings(t, b, events[1..][1..], copy.mid);
    assert SmoothRun(t, b, [Handled(0, FAILS)], copy.mid) && SmoothRun(t, a, events[1..], copy.mid);
  }

  /** The copy that follows goes where the verdict sends it. */
  lemma Republished(t: Trigger, s: Sys, tag: nat, copy: Copy)
    requires s.queue == [] && s.received == map[] && s.unacked == map[tag := copy]
    requires s.works == map[0 := Work(tag, s.epoch, copy, AfterHandler(t, copy, FAILS))]
    ensures SmoothRun(t, s, Republication(), copy.mid) && Handlings(t, s, Republication(), copy.mid) == 0
    ensures var u := Run(t, s, Republication());
            && Idle(u)
            && exists reason :: if SentAway(t, copy) then u.queue == [] && u.dlq == s.dlq + [NextCopy(copy, reason)]
                                else u.queue == [NextCopy(copy, reason)] && u.dlq == s.dlq
  {
    FailsOn(t, copy);
    hide FromHeaders, NextCopy, Verdict;
    var reason := s.works[0].phase.reason;
    var a := Step(t, s, Waited(0, false));
    assert a.works[0].phase.Confirming? && a.works[0].phase.reason == reason;
    var b := Step(t, a, Published(0, true, true));
    assert b.works[0].phase == Acking;
    assert if SentAway(t, copy) then b.queue == [] && b.dlq == s.dlq + [NextCopy(copy, reason)]
           else b.queue == [NextCopy(copy, reason)] && b.dlq == s.dlq;
    var c := Step(t, b, Event.Acked(0, true));
    assert Idle(c);
    hide Step;
    var events := Republication();
    assert events[1..] == [Published(0, true, true), Event.Acked(0, true)]
        && events[1..][1..] == [Event.Acked(0, true)];
    assert Run(t, b, [Event.Acked(0, true)]) == Run(t, c, []);
    assert Run(t, a, events[1..]) == Run(t, b, events[1..][1..]);
    assert Run(t, s, events) == c;
    assert Handlings(t, b, [Event.Acked(0, true)], copy.mid) == Handlings(t, c, [], copy.mid);
    assert Handlings(t, a, events[1..], copy.mid) == Handlings(t, b, events[1..][1..], copy.mid);
    assert SmoothRun(t, b, [Event.Acked(0, true)], copy.mid) && SmoothRun(t, a, events[1..], copy.mid);
  }

  /** A failure never ends in a nack or an ack. */
  lemma FailsOn(t: Trigger, copy: Copy)
    ensures var phase := AfterHandler(t, copy, FAILS);
            && (phase.BackingOff? || phase.Confirming?)
            && (phase.Confirming? ==> phase.dead)
            && (phase.Confirming? <==> Verdict(t, FromHeaders(copy.headers), FAILS).Dlq?)
  {
  }

  function Failure(tag: nat): seq<Event> { Attempt(tag) + Republication() }

  predicate NoProduce(events: seq<Event>) { forall k :: 0 <= k < |events| ==> !events[k].Produce? }

  lemma FailureProducesNothing(tag: nat)
    ensures NoProduce(Failure(tag))
  {
  }

  /** The only copy is handled once, the function fails, and the copy that follows is in the trigger's queue or in the
      dead-letter queue. */
  lemma FailsOnce(t: Trigger, s: Sys, copy: Copy) returns (next: Copy)
    requires Alone(s, copy) && t.maxConcurrency > 0
    ensures SmoothRun(t, s, Failure(s.nextTag), copy.mid) && Handlings(t, s, Failure(s.nextTag), copy.mid) == 1
    ensures var u := Run(t, s, Failure(s.nextTag));
            && Idle(u)
            && if SentAway(t, copy) then u.queue == [] && u.dlq == s.dlq + [next]
               else u.queue == [next] && u.dlq == s.dlq
    ensures next.mid == copy.mid && FromHeaders(next.headers) == NextAttempts(FromHeaders(copy.headers))
  {
    hide Step, FromHeaders, AfterHandler, Verdict, SentAway, NextAttempts, Idle, Attempt, Republication;
    AttemptFails(t, s, copy);
    var u := Run(t, s, Attempt(s.nextTag));
    Republished(t, u, s.nextTag, copy);
    var v := Run(t, u, Republication());
    var reason :| if SentAway(t, copy) then v.queue == [] && v.dlq == u.dlq + [NextCopy(copy, reason)]
                  else v.queue == [NextCopy(copy, reason)] && v.dlq == u.dlq;
    next := NextCopy(copy, reason);
    NextCopyCount(copy, reason);
    SameMessage(copy, reason);
    HandlingsTogether(t, s, Attempt(s.nextTag), Republication(), copy.mid);
  }

  lemma SameMessage(copy: Copy, reason: string)
    ensures NextCopy(copy, reason).mid == copy.mid
  {
  }

  // ----- who has the unacked deliveries -----

  /** Every unacked delivery of the message is in the subscriber's hands or with a goroutine. */
  predicate Tracked(s: Sys, mid: nat) {
    forall tag :: tag in s.unacked && s.unacked[tag].mid == mid ==> InHand(s, tag)
  }

  predicate InHand(s: Sys, tag: nat) {
    tag in s.received || exists pid :: pid in s.works && s.works[pid].tag == tag
  }

  lemma WorkStays(t: Trigger, s: Sys, e: Event, pid: nat)
    requires pid in s.works && ((e.Acked? || e.Nacked?) ==> e.pid != pid)
    ensures var u := Step(t, s, e); pid in u.works && u.works[pid].tag == s.works[pid].tag
  {
    hide AfterHandler, NextCopy, Slots;
  }

  /** Only a delivery creates a tag, and only the start of its goroutine takes it from the subscriber. */
  lemma TagBefore(t: Trigger, s: Sys, e: Event, tag: nat)
    requires tag in Step(t, s, e).unacked
    ensures tag in s.unacked || tag in Step(t, s, e).received
    ensures tag in s.unacked && tag != s.nextTag ==> Step(t, s, e).unacked[tag] == s.unacked[tag]
    ensures tag in s.received ==> InHand(Step(t, s, e), tag)
  {
    hide AfterHandler, NextCopy, Slots;
    var u := Step(t, s, e);
    if e.Begin? && tag in s.received && tag !in u.received {
      assert u.works[e.pid].tag == tag;
    }
  }

  /** A goroutine of the message ends only with its ack, which arrives. */
  lemma EndedGone(t: Trigger, s: Sys, e: Event, mid: nat)
    requires Smooth(s, e, mid) && NoNack(s, mid) && (e.Acked? || e.Nacked?) && WorksOn(s, e.pid, mid)
    ensures var u := Step(t, s, e); u == s || s.works[e.pid].tag !in u.unacked
  {
  }

  lemma StepTracked(t: Trigger, s: Sys, e: Event, mid: nat)
    requires Smooth(s, e, mid) && Ready(s, mid) && Tracked(s, mid)
    ensures Tracked(Step(t, s, e), mid)
  {
    hide Step, Smooth;
    var u := Step(t, s, e);
    forall tag | tag in u.unacked && u.unacked[tag].mid == mid ensures InHand(u, tag) {
      TagBefore(t, s, e, tag);
      if tag in s.unacked && tag !in s.received {
        var pid :| pid in s.works && s.works[pid].tag == tag;
        if (e.Acked? || e.Nacked?) && e.pid == pid {
          EndedGone(t, s, e, mid);
        } else {
          WorkStays(t, s, e, pid);
        }
      }
    }
  }
}
