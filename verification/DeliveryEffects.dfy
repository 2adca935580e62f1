/** What one step of a delivery does, in the fields of the state alone: where a handling leads, what is published where,
    and when a goroutine may begin. */
module DeliveryEffects {
  import opened Attempts
  import opened Delivery
  import opened Options
  import HeaderCount

  /** The attempts are used up: there is a limit with a dead-letter queue, and Go's count + 1 has reached it. */
  predicate UsedUp(t: Trigger, count: Int64) {
    t.maxAttempts > 0 && t.dlq != "" && count + 1 >= t.maxAttempts && count < 0x7fff_ffff_ffff_ffff
  }

  /** The error that the handling ends with, unless a release failed. */
  predicate FailsWith(call: Call, err: string) {
    || call == AcquireFailed(err)
    || (call.Ran? && call.releaseErr.None? && call.invocation.Failed? && call.invocation.err == err)
  }

  /** A run that succeeded, with an accepted release, is acked. A failed release is retried with its own error. Any
      other failure goes to the dead-letter queue if the attempts are used up, and is retried if not, with the error it
      had. */
  lemma HandledEffect(t: Trigger, s: Sys, pid: nat, call: Call)
    requires In(s, pid, Handling)
    ensures var w, u := s.works[pid], Step(t, s, Handled(pid, call));
            && u == s.(works := s.works[pid := w.(phase := u.works[pid].phase)], done := u.done)
            && (call == Ran(Succeeded, None) <==> u.works[pid].phase == Acking)
            && (call == Ran(Succeeded, None) ==> u.done == s.done + {w.copy.mid})
            && (call != Ran(Succeeded, None) ==> u.done == s.done)
            && (call.Ran? && call.releaseErr.Some? ==> u.works[pid].phase == BackingOff(call.releaseErr.value))
            && (forall err :: FailsWith(call, err) ==>
                  u.works[pid].phase == if UsedUp(t, FromHeaders(w.copy.headers)) then Confirming(true, err)
                                        else BackingOff(err))
  {
    hide FromHeaders;
    var count := FromHeaders(s.works[pid].copy.headers);
    assert ShouldDlq(t, count) <==> UsedUp(t, count);
  }

  /** After the backoff comes the publish, unless the context was cancelled. */
  lemma WaitedEffect(t: Trigger, s: Sys, pid: nat, reason: string, canceled: bool)
    requires In(s, pid, BackingOff(reason))
    ensures Step(t, s, Waited(pid, canceled))
         == s.(works := s.works[pid := s.works[pid].(phase := if canceled then Nacking else Confirming(false, reason))])
  {
  }

  /** `next` is `copy` with one attempt more, as far as int32 goes, and the reason. */
  predicate IsNext(copy: Copy, next: Copy, reason: string) {
    && next.mid == copy.mid
    && (forall k :: k in next.headers.Keys + copy.headers.Keys && k !in {"x-faas-attempts", "x-faas-reason"} ==>
          k in copy.headers && k in next.headers && next.headers[k] == copy.headers[k])
    && (reason != "" ==> "x-faas-reason" in next.headers && next.headers["x-faas-reason"] == OfText(reason))
    && (reason == "" ==> ("x-faas-reason" in next.headers <==> "x-faas-reason" in copy.headers))
    && (reason == "" && "x-faas-reason" in copy.headers ==>
          next.headers["x-faas-reason"] == copy.headers["x-faas-reason"])
    && var count, shown := FromHeaders(copy.headers), FromHeaders(next.headers);
       && -0x8000_0000 <= shown < 0x8000_0000 && (shown - count - 1) % 0x1_0000_0000 == 0
  }

  lemma NextIsNext(copy: Copy, reason: string)
    ensures IsNext(copy, NextCopy(copy, reason), reason)
  {
    var count: int := FromHeaders(copy.headers);
    HeaderCount.PublishingKeeps(copy.headers, Wrap64(count + 1), reason);
    Cut(FromHeaders(copy.headers), Wrap64(count + 1));
  }

  lemma Cut(count: Int64, wrapped: Int64)
    requires wrapped == Wrap64(count + 1)
    ensures (Wrap32(wrapped) - count - 1) % 0x1_0000_0000 == 0
  {
    if count < TWO63 - 1 { assert wrapped == count + 1; }
  }

  /** A stored publish puts the next copy into the dead-letter queue or the trigger's own, and only a confirmed one lets
      the old delivery be acked. */
  lemma PublishedEffect(t: Trigger, s: Sys, pid: nat, stored: bool, confirmed: bool)
    requires pid in s.works && s.works[pid].phase.Confirming? && (confirmed ==> stored)
    ensures var w, u := s.works[pid], Step(t, s, Published(pid, stored, confirmed));
            && u == s.(works := s.works[pid := w.(phase := if confirmed then Acking else Nacking)],
                       queue := u.queue, dlq := u.dlq)
            && if !stored then u.queue == s.queue && u.dlq == s.dlq
               else if w.phase.dead && t.dlq != t.queue then
                 u.queue == s.queue && |u.dlq| == |s.dlq| + 1 && u.dlq[..|s.dlq|] == s.dlq
                 && IsNext(w.copy, u.dlq[|s.dlq|], w.phase.reason)
               else
                 u.dlq == s.dlq && |u.queue| == |s.queue| + 1 && u.queue[..|s.queue|] == s.queue
                 && IsNext(w.copy, u.queue[|s.queue|], w.phase.reason)
  {
    NextIsNext(s.works[pid].copy, s.works[pid].phase.reason);
    hide NextCopy, FromHeaders, IsNext;
  }

  /** An ack that arrives removes the delivery, a nack puts it back; either ends the goroutine. */
  lemma SettledEffect(t: Trigger, s: Sys, pid: nat, arrives: bool)
    requires pid in s.works && (s.works[pid].phase == Acking || s.works[pid].phase == Nacking)
    ensures var tag := s.works[pid].tag;
            var end := if s.works[pid].phase == Acking then Event.Acked(pid, arrives) else Nacked(pid, arrives);
            var u := Step(t, s, end);
            if !arrives || tag !in s.unacked then u == s.(works := s.works - {pid})
            else if s.works[pid].phase == Acking then
              u == s.(works := s.works - {pid}, unacked := s.unacked - {tag})
            else
              u == s.(works := s.works - {pid}, unacked := s.unacked - {tag}, queue := s.queue + [s.unacked[tag]])
  {
    if tag :| tag == s.works[pid].tag && tag !in s.unacked { assert s.unacked - {tag} == s.unacked; }
  }

  /** A received delivery of the current channel is handled, on a goroutine of its own, exactly when fewer than
      MaxConcurrency goroutines of this subscription run. */
  lemma BeginEffect(t: Trigger, s: Sys, pid: nat, tag: nat)
    requires pid !in s.works && tag in s.received && s.received[tag].epoch == s.epoch
    ensures var running := set p | p in s.works && s.works[p].epoch == s.epoch;
            Step(t, s, Begin(pid, tag))
            == if |running| < t.maxConcurrency then
                 s.(works := s.works[pid := Work(tag, s.epoch, s.received[tag].copy, Handling)],
                    received := s.received - {tag})
               else s
  {
    assert (set p | p in s.works && s.works[p].epoch == s.epoch) == Slots(s);
  }

  /** A delivery takes one copy from the queue, under a tag of its own. */
  lemma DeliverEffect(t: Trigger, s: Sys, i: nat)
    requires i < |s.queue|
    ensures var u := Step(t, s, Deliver(i));
            && u == s.(queue := s.queue[..i] + s.queue[i + 1..], unacked := s.unacked[s.nextTag := s.queue[i]],
                       received := s.received[s.nextTag := Received(s.queue[i], s.epoch)], nextTag := s.nextTag + 1)
  {
  }

  /** A new message goes to the end of the queue with the header it was sent with. */
  lemma ProduceEffect(t: Trigger, s: Sys, mid: nat, headers: map<string, Header>)
    requires mid !in s.sent
    ensures Step(t, s, Produce(mid, headers))
         == s.(sent := s.sent + {mid}, queue := s.queue + [Copy(mid, headers)])
  {
  }

  /** The status that the lease of a run is released with. */
  lemma StatusMeans(i: Invocation)
    ensures i.Succeeded? ==> Status(i) == "success"
    ensures i.Failed? && i.deadline ==> Status(i) == "timeout"
    ensures i.Failed? && !i.deadline && i.canceled ==> Status(i) == "abandoned"
    ensures i.Failed? && !i.deadline && !i.canceled ==> Status(i) == "error"
  {
  }
}
