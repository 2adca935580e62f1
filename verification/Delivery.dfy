/** At-least-once delivery of one trigger (mqsvc/rabbitmq.go): the broker's queue, dead-letter queue and unacked
    deliveries, and the goroutines of handleDelivery, each between two of its effects.

    What the broker promises is in the steps: an unacked delivery can return to the queue but does not vanish, and a
    confirmed publish was stored.  Everything else may fail: publishes, confirms, acks, nacks, the channel.
    `DeliveryNet` puts several such triggers on shared queues. */
module Delivery {
  import opened Attempts
  import Sets

  /** `mid` is the identity of a message, which its body and id stand for. */
  datatype Copy = Copy(mid: nat, headers: map<string, Header>)

  datatype Phase =
    | Handling                                  // inside handler
    | BackingOff(reason: string)
    | Confirming(dead: bool, reason: string)   // inside publishWithConfirm
    | Acking
    | Nacking

  datatype Work = Work(tag: nat, epoch: nat, copy: Copy, phase: Phase)

  /** A delivery in the hands of the subscriber, received on the channel of `epoch`. */
  datatype Received = Received(copy: Copy, epoch: nat)

  datatype Sys = Sys(
    sent: set<nat>, queue: seq<Copy>, dlq: seq<Copy>, unacked: map<nat, Copy>,
    received: map<nat, Received>, nextTag: nat, epoch: nat, works: map<nat, Work>,
    done: set<nat>)                             // ran successfully, with an accepted release

  datatype Event =
    | Produce(mid: nat, headers: map<string, Header>)
    | Deliver(index: nat)
    | Begin(pid: nat, tag: nat)
    | Handled(pid: nat, call: Call)
    | Waited(pid: nat, canceled: bool)
    | Published(pid: nat, stored: bool, confirmed: bool)
    | Acked(pid: nat, arrives: bool)
    | Nacked(pid: nat, arrives: bool)
    | Returned(tag: nat)
    | Resubscribe

  const INIT := Sys({}, [], [], map[], map[], 0, 0, map[], {})

  /** The goroutines that hold a slot of the current subscription's semaphore. */
  function Slots(s: Sys): set<nat> {
    set pid | pid in s.works && s.works[pid].epoch == s.epoch
  }

  predicate In(s: Sys, pid: nat, phase: Phase) {
    pid in s.works && s.works[pid].phase == phase
  }

  function Move(s: Sys, pid: nat, phase: Phase): Sys
    requires pid in s.works
  {
    s.(works := s.works[pid := s.works[pid].(phase := phase)])
  }

  function Without(copies: seq<Copy>, i: nat): seq<Copy>
    requires i < |copies|
  {
    copies[..i] + copies[i + 1..]
  }

  /** What the handler's result leads to. */
  function AfterHandler(t: Trigger, copy: Copy, call: Call): Phase {
    PhaseOf(t, Verdict(t, FromHeaders(copy.headers), call))
  }

  function PhaseOf(t: Trigger, result: Result): Phase {
    match result
    case Ack => Acking
    case Dlq(reason) => if t.dlq == "" then Nacking else Confirming(true, reason)
    case Retry(reason) => BackingOff(reason)
  }

  /** The copy that publishWithConfirm sends. */
  function NextCopy(copy: Copy, reason: string): Copy {
    Copy(copy.mid, Publishing(copy.headers, Wrap64(FromHeaders(copy.headers) + 1), reason))
  }

  /** A publish goes to the queue that bears its name. */
  function Store(t: Trigger, s: Sys, dead: bool, copy: Copy): Sys {
    if dead && t.dlq != t.queue then s.(dlq := s.dlq + [copy]) else s.(queue := s.queue + [copy])
  }

  function Requeue(s: Sys, tag: nat): Sys {
    if tag !in s.unacked then s
    else s.(queue := s.queue + [s.unacked[tag]], unacked := s.unacked - {tag})
  }

  function Step(t: Trigger, s: Sys, e: Event): Sys {
    match e
    case Produce(mid, headers) =>
      if mid in s.sent then s else s.(sent := s.sent + {mid}, queue := s.queue + [Copy(mid, headers)])
    case Deliver(index) =>
      if index >= |s.queue| then s
      else s.(queue := Without(s.queue, index), unacked := s.unacked[s.nextTag := s.queue[index]],
              received := s.received[s.nextTag := Received(s.queue[index], s.epoch)], nextTag := s.nextTag + 1)
    case Begin(pid, tag) =>
      if pid in s.works || tag !in s.received || s.received[tag].epoch != s.epoch || |Slots(s)| >= t.maxConcurrency
      then s
      else s.(works := s.works[pid := Work(tag, s.epoch, s.received[tag].copy, Handling)],
          received := s.received - {tag})
    case Handled(pid, call) =>
      if !In(s, pid, Handling) then s
      else
        var phase := AfterHandler(t, s.works[pid].copy, call);
        Move(s, pid, phase).(done := if phase.Acking? then s.done + {s.works[pid].copy.mid} else s.done)
    case Waited(pid, canceled) =>
      if pid !in s.works || !s.works[pid].phase.BackingOff? then s
      else Move(s, pid, if canceled then Nacking else Confirming(false, s.works[pid].phase.reason))
    case Published(pid, stored, confirmed) =>
      if pid !in s.works || !s.works[pid].phase.Confirming? || (confirmed && !stored) then s
      else
        var w := s.works[pid];
        var moved := Move(s, pid, if confirmed then Acking else Nacking);
        if stored then Store(t, moved, w.phase.dead, NextCopy(w.copy, w.phase.reason)) else moved
    case Acked(pid, arrives) =>
      if !In(s, pid, Acking) then s
      else s.(unacked := if arrives then s.unacked - {s.works[pid].tag} else s.unacked, works := s.works - {pid})
    case Nacked(pid, arrives) =>
      if !In(s, pid, Nacking) then s
      else (if arrives then Requeue(s, s.works[pid].tag) else s).(works := s.works - {pid})
    case Returned(tag) => Requeue(s, tag)
    case Resubscribe => s.(epoch := s.epoch + 1)
  }

  function Run(t: Trigger, s: Sys, events: seq<Event>): Sys
    decreases |events|
  {
    if events == [] then s else Run(t, Step(t, s, events[0]), events[1..])
  }

  // ----- no message is lost -----

  predicate Has(copies: seq<Copy>, mid: nat) {
    exists i :: 0 <= i < |copies| && copies[i].mid == mid
  }

  /** A delivery whose goroutine is about to ack it. */
  predicate Doomed(s: Sys, tag: nat) {
    exists pid :: pid in s.works && s.works[pid].tag == tag && s.works[pid].phase == Acking
  }

  predicate Safe(s: Sys, tag: nat, mid: nat) {
    tag in s.unacked && s.unacked[tag].mid == mid && !Doomed(s, tag)
  }

  /** What keeps a message: it is done, or one of its copies is not about to be acked. */
  ghost predicate Anchored(s: Sys, mid: nat) {
    mid in s.done || Has(s.queue, mid) || Has(s.dlq, mid) || exists tag :: Safe(s, tag, mid)
  }

  predicate TagsOld(s: Sys) {
    && (forall tag :: tag in s.unacked ==> tag < s.nextTag)
    && (forall tag :: tag in s.received ==> tag < s.nextTag)
    && (forall pid :: pid in s.works ==> s.works[pid].tag < s.nextTag)
  }

  /** Each delivery has at most one goroutine. */
  predicate OneEach(s: Sys) {
    && (forall p, q :: p in s.works && q in s.works && s.works[p].tag == s.works[q].tag ==> p == q)
    && (forall p :: p in s.works ==> s.works[p].tag !in s.received)
  }

  /** Subscriber and broker mean the same copy by a tag. */
  predicate Agree(s: Sys) {
    && (forall tag :: tag in s.received && tag in s.unacked ==> s.received[tag].copy == s.unacked[tag])
    && (forall p :: p in s.works && s.works[p].tag in s.unacked ==> s.works[p].copy == s.unacked[s.works[p].tag])
  }

  /** A goroutine leaves the semaphore only at its end. */
  predicate WithinSlots(t: Trigger, s: Sys) {
    && |Slots(s)| <= (if t.maxConcurrency > 0 then t.maxConcurrency else 0)
    && (forall pid :: pid in s.works ==> s.works[pid].epoch <= s.epoch)
  }

  ghost predicate NoneLost(s: Sys) {
    forall mid :: mid in s.sent ==> Anchored(s, mid)
  }

  ghost predicate Inv(t: Trigger, s: Sys) {
    TagsOld(s) && OneEach(s) && Agree(s) && WithinSlots(t, s) && NoneLost(s)
  }

  lemma StepTags(t: Trigger, s: Sys, e: Event)
    requires TagsOld(s) && OneEach(s)
    ensures TagsOld(Step(t, s, e)) && OneEach(Step(t, s, e))
  {
    StepOneEach(t, s, e);
    hide OneEach;
    if e.Handled? || e.Waited? || e.Published? { WorkTags(t, s, e); } else { StepTagsOld(t, s, e); }
  }

  /** A goroutine on its way keeps its tag, and no delivery comes or goes. */
  lemma WorkTags(t: Trigger, s: Sys, e: Event)
    requires TagsOld(s) && (e.Handled? || e.Waited? || e.Published?)
    ensures TagsOld(Step(t, s, e))
  {
    hide AfterHandler, NextCopy;
  }

  lemma StepTagsOld(t: Trigger, s: Sys, e: Event)
    requires TagsOld(s) && !e.Handled? && !e.Waited? && !e.Published?
    ensures TagsOld(Step(t, s, e))
  {
    hide Slots;
  }

  lemma StepOneEach(t: Trigger, s: Sys, e: Event)
    requires TagsOld(s) && OneEach(s)
    ensures OneEach(Step(t, s, e))
  {
    hide Verdict, FromHeaders, NextCopy, Slots, AfterHandler;
  }

  lemma StepAgree(t: Trigger, s: Sys, e: Event)
    requires TagsOld(s) && OneEach(s) && Agree(s)
    ensures Agree(Step(t, s, e))
  {
    hide Verdict, FromHeaders, NextCopy, Slots, AfterHandler;
  }

  lemma StepSlots(t: Trigger, s: Sys, e: Event)
    requires WithinSlots(t, s)
    ensures WithinSlots(t, Step(t, s, e))
  {
    hide Verdict, FromHeaders, NextCopy, AfterHandler, Slots;
    match e
    case Begin(pid, tag) => BeginSlots(t, s, pid, tag);
    case Resubscribe => NewSlots(s);
    case _ => FewerSlots(s, Step(t, s, e));
  }

  lemma BeginSlots(t: Trigger, s: Sys, pid: nat, tag: nat)
    ensures var u := Step(t, s, Begin(pid, tag));
            u == s || (|Slots(s)| < t.maxConcurrency && |Slots(u)| == |Slots(s)| + 1)
  {
    var u := Step(t, s, Begin(pid, tag));
    if u != s {
      assert Slots(u) == Slots(s) + {pid} && pid !in Slots(s);
    }
  }

  lemma NewSlots(s: Sys)
    requires forall pid :: pid in s.works ==> s.works[pid].epoch <= s.epoch
    ensures Slots(s.(epoch := s.epoch + 1)) == {}
  {
  }

  lemma FewerSlots(s: Sys, u: Sys)
    requires u.epoch == s.epoch
    requires forall p :: p in u.works ==> p in s.works && s.works[p].epoch == u.works[p].epoch
    ensures |Slots(u)| <= |Slots(s)|
  {
    Sets.SubsetIsSmaller(Slots(u), Slots(s));
  }

  lemma HasMore(copies: seq<Copy>, c: Copy, mid: nat)
    ensures Has(copies + [c], mid) <==> Has(copies, mid) || c.mid == mid
  {
    assert (copies + [c])[|copies|] == c;
    if i :| 0 <= i < |copies| && copies[i].mid == mid {
      assert (copies + [c])[i] == copies[i];
    }
  }

  lemma HasLess(copies: seq<Copy>, i: nat, mid: nat)
    requires i < |copies| && Has(copies, mid) && copies[i].mid != mid
    ensures Has(Without(copies, i), mid)
  {
    var j :| 0 <= j < |copies| && copies[j].mid == mid;
    assert Without(copies, i)[if j < i then j else j - 1] == copies[j];
  }

  /** A safe delivery stays safe as long as its own goroutine does not begin to ack. */
  lemma StaysSafe(s: Sys, u: Sys, tag: nat, mid: nat)
    requires Safe(s, tag, mid) && tag in u.unacked && u.unacked[tag] == s.unacked[tag]
    requires forall p | p in u.works && u.works[p].tag == tag && u.works[p].phase == Acking ::
               p in s.works && s.works[p].tag == tag && s.works[p].phase == Acking
    ensures Safe(u, tag, mid)
  {
  }

  lemma QueueAnchors(s: Sys, mid: nat)
    requires Has(s.queue, mid)
    ensures Anchored(s, mid)
  {
  }

  lemma RequeueAnchors(s: Sys, tag: nat, works: map<nat, Work>, mid: nat)
    requires Anchored(s, mid)
    requires forall p :: p in works ==> p in s.works && s.works[p] == works[p]
    ensures Anchored(Requeue(s, tag).(works := works), mid)
  {
    var u := Requeue(s, tag).(works := works);
    if tag in s.unacked { HasMore(s.queue, s.unacked[tag], mid); }
    if mid !in s.done && !Has(s.queue, mid) && !Has(s.dlq, mid) {
      var x :| Safe(s, x, mid);
      if x != tag {
        StaysSafe(s, u, x, mid);
      } else {
        QueueAnchors(u, mid);
      }
    }
  }

  lemma DeliverAnchors(t: Trigger, s: Sys, index: nat, mid: nat)
    requires TagsOld(s) && Anchored(s, mid) && index < |s.queue|
    ensures Anchored(Step(t, s, Deliver(index)), mid)
  {
    var u := Step(t, s, Deliver(index));
    if s.queue[index].mid == mid {
      assert !Doomed(u, s.nextTag);
      assert Safe(u, s.nextTag, mid);
    } else if Has(s.queue, mid) {
      HasLess(s.queue, index, mid);
    } else if mid !in s.done && !Has(s.dlq, mid) {
      var x :| Safe(s, x, mid);
      StaysSafe(s, u, x, mid);
    }
  }

  /** Nothing that holds copies changes, and no goroutine begins to ack. */
  lemma QuietAnchors(s: Sys, u: Sys, mid: nat)
    requires Anchored(s, mid) && s.done <= u.done && u.queue == s.queue && u.dlq == s.dlq && u.unacked == s.unacked
    requires forall p :: p in u.works && u.works[p].phase == Acking ==> p in s.works && s.works[p] == u.works[p]
    ensures Anchored(u, mid)
  {
    if mid !in s.done && !Has(s.queue, mid) && !Has(s.dlq, mid) {
      var x :| Safe(s, x, mid);
      StaysSafe(s, u, x, mid);
    }
  }

  /** A goroutine begins to ack its own copy, which is anchored elsewhere; copies may be added. */
  lemma AckingAnchors(s: Sys, u: Sys, pid: nat, mid: nat)
    requires OneEach(s) && Agree(s) && Anchored(s, mid) && pid in s.works
    requires u.works == s.works[pid := s.works[pid].(phase := Acking)] && u.unacked == s.unacked && s.done <= u.done
    requires forall m :: Has(s.queue, m) ==> Has(u.queue, m)
    requires forall m :: Has(s.dlq, m) ==> Has(u.dlq, m)
    requires var own := s.works[pid].copy.mid; own in u.done || Has(u.queue, own) || Has(u.dlq, own)
    ensures Anchored(u, mid)
  {
    if mid != s.works[pid].copy.mid && mid !in s.done && !Has(s.queue, mid) && !Has(s.dlq, mid) {
      var x :| Safe(s, x, mid);
      assert x != s.works[pid].tag;
      StaysSafe(s, u, x, mid);
    }
  }

  lemma MoreAnchors(s: Sys, u: Sys, mid: nat)
    requires Anchored(s, mid) && u.unacked == s.unacked && u.works == s.works && u.done == s.done
    requires forall m :: Has(s.queue, m) ==> Has(u.queue, m)
    requires forall m :: Has(s.dlq, m) ==> Has(u.dlq, m)
    ensures Anchored(u, mid)
  {
    if mid !in s.done && !Has(s.queue, mid) && !Has(s.dlq, mid) {
      var x :| Safe(s, x, mid);
      StaysSafe(s, u, x, mid);
    }
  }

  lemma StoreHas(t: Trigger, s: Sys, dead: bool, copy: Copy)
    ensures var u := Store(t, s, dead, copy);
            && (forall m :: Has(s.queue, m) ==> Has(u.queue, m)) && (forall m :: Has(s.dlq, m) ==> Has(u.dlq, m))
            && (Has(u.queue, copy.mid) || Has(u.dlq, copy.mid))
            && u.unacked == s.unacked && u.works == s.works && u.done == s.done && u.sent == s.sent
  {
    forall m ensures Has(s.queue, m) ==> Has(s.queue + [copy], m) { HasMore(s.queue, copy, m); }
    forall m ensures Has(s.dlq, m) ==> Has(s.dlq + [copy], m) { HasMore(s.dlq, copy, m); }
    HasMore(s.queue, copy, copy.mid);
    HasMore(s.dlq, copy, copy.mid);
  }

  lemma PublishedAnchors(t: Trigger, s: Sys, pid: nat, stored: bool, confirmed: bool, mid: nat)
    requires OneEach(s) && Agree(s) && Anchored(s, mid)
    ensures Anchored(Step(t, s, Published(pid, stored, confirmed)), mid)
  {
    var u := Step(t, s, Published(pid, stored, confirmed));
    if pid in s.works && s.works[pid].phase.Confirming? && !(confirmed && !stored) {
      var w := s.works[pid];
      var moved := Move(s, pid, if confirmed then Acking else Nacking);
      if stored { StoreHas(t, moved, w.phase.dead, NextCopy(w.copy, w.phase.reason)); }
      if confirmed {
        AckingAnchors(s, u, pid, mid);
      } else {
        QuietAnchors(s, moved, mid);
        MoreAnchors(moved, u, mid);
      }
    }
  }

  lemma AckedAnchors(t: Trigger, s: Sys, pid: nat, arrives: bool, mid: nat)
    requires OneEach(s) && Anchored(s, mid)
    ensures Anchored(Step(t, s, Event.Acked(pid, arrives)), mid)
  {
    var u := Step(t, s, Event.Acked(pid, arrives));
    if In(s, pid, Acking) && mid !in s.done && !Has(s.queue, mid) && !Has(s.dlq, mid) {
      var x :| Safe(s, x, mid);
      assert x != s.works[pid].tag;
      StaysSafe(s, u, x, mid);
    }
  }

  lemma StepAnchors(t: Trigger, s: Sys, e: Event, mid: nat)
    requires TagsOld(s) && OneEach(s) && Agree(s) && Anchored(s, mid)
    ensures Anchored(Step(t, s, e), mid)
  {
    hide Has, Safe, AfterHandler, NextCopy, Slots, TagsOld, OneEach, Agree, Anchored;
    var u := Step(t, s, e);
    match e
    case Produce(m, headers) =>
      if m !in s.sent {
        forall x ensures Has(s.queue, x) ==> Has(u.queue, x) { HasMore(s.queue, Copy(m, headers), x); }
        MoreAnchors(s, u, mid);
      }
    case Deliver(index) => if index < |s.queue| { DeliverAnchors(t, s, index, mid); }
    case Handled(pid, call) => HandledAnchors(t, s, pid, call, mid);
    case Published(pid, stored, confirmed) => PublishedAnchors(t, s, pid, stored, confirmed, mid);
    case Acked(pid, arrives) => AckedAnchors(t, s, pid, arrives, mid);
    case Nacked(pid, arrives) =>
      if In(s, pid, Nacking) {
        if arrives { RequeueAnchors(s, s.works[pid].tag, u.works, mid); } else { QuietAnchors(s, u, mid); }
      }
    case Returned(tag) => RequeueAnchors(s, tag, s.works, mid);
    case _ => QuietAnchors(s, u, mid);
  }

  lemma HandledAnchors(t: Trigger, s: Sys, pid: nat, call: Call, mid: nat)
    requires OneEach(s) && Agree(s) && Anchored(s, mid)
    ensures Anchored(Step(t, s, Handled(pid, call)), mid)
  {
    hide AfterHandler;
    var u := Step(t, s, Handled(pid, call));
    if In(s, pid, Handling) {
      if AfterHandler(t, s.works[pid].copy, call).Acking? {
        AckingAnchors(s, u, pid, mid);
      } else {
        QuietAnchors(s, u, mid);
      }
    }
  }

  lemma StepSent(t: Trigger, s: Sys, e: Event, mid: nat)
    requires mid in Step(t, s, e).sent && mid !in s.sent
    ensures Anchored(Step(t, s, e), mid)
  {
    HasMore(s.queue, Copy(mid, e.headers), mid);
    QueueAnchors(Step(t, s, e), mid);
  }

  lemma StepInv(t: Trigger, s: Sys, e: Event)
    requires Inv(t, s)
    ensures Inv(t, Step(t, s, e))
  {
    hide Step, TagsOld, OneEach, Agree, WithinSlots, Anchored;
    StepTags(t, s, e);
    StepAgree(t, s, e);
    StepSlots(t, s, e);
    forall mid | mid in Step(t, s, e).sent ensures Anchored(Step(t, s, e), mid) {
      if mid in s.sent { StepAnchors(t, s, e, mid); } else { StepSent(t, s, e, mid); }
    }
  }

  lemma {:induction false} RunInv(t: Trigger, s: Sys, events: seq<Event>)
    requires Inv(t, s)
    ensures Inv(t, Run(t, s, events))
    decreases |events|
  {
    if events != [] {
      StepInv(t, s, events[0]);
      RunInv(t, Step(t, s, events[0]), events[1..]);
    }
  }

  /** In every reachable state each message has a copy queued, dead-lettered or unacked, or was run successfully with an
      accepted release; and no subscription runs more than MaxConcurrency handlings at once. */
  lemma NoMessageIsLost(t: Trigger, events: seq<Event>, mid: nat)
    ensures var s := Run(t, INIT, events);
            mid in s.sent ==> mid in s.done || Has(s.queue, mid) || Has(s.dlq, mid)
                              || exists tag :: tag in s.unacked && s.unacked[tag].mid == mid
    ensures |Slots(Run(t, INIT, events))| <= if t.maxConcurrency > 0 then t.maxConcurrency else 0
  {
    assert Slots(INIT) == {};
    RunInv(t, INIT, events);
    var s := Run(t, INIT, events);
    if mid in s.sent && mid !in s.done && !Has(s.queue, mid) && !Has(s.dlq, mid) {
      assert Anchored(s, mid);
      var tag :| Safe(s, tag, mid);
    }
  }

  /** A handling leads to a dead letter only when the attempts are used up. */
  lemma DeadVerdict(t: Trigger, copy: Copy, call: Call)
    ensures AfterHandler(t, copy, call).Confirming? && AfterHandler(t, copy, call).dead
            ==> ShouldDlq(t, FromHeaders(copy.headers))
  {
    VerdictMeans(t, FromHeaders(copy.headers), call);
  }

  /** Delivery is at least once, not exactly once: when only the confirm of a retry copy is lost, that copy and the
      requeued delivery both remain. */
  lemma LostConfirmDuplicates(t: Trigger, s: Sys, pid: nat)
    requires Agree(s) && pid in s.works && s.works[pid].tag in s.unacked
    requires s.works[pid].phase.Confirming? && !s.works[pid].phase.dead
    ensures var w := s.works[pid];
            var u := Step(t, Step(t, s, Published(pid, true, false)), Nacked(pid, true));
            u.queue == s.queue + [NextCopy(w.copy, w.phase.reason), w.copy] && w.tag !in u.unacked
  {
    var w := s.works[pid];
    var u := Step(t, s, Published(pid, true, false));
    assert In(u, pid, Nacking) && u.works[pid].tag == w.tag;
    assert u.queue == s.queue + [NextCopy(w.copy, w.phase.reason)];
  }
}
