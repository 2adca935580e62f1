/** What stands in a trigger's dead-letter queue: which handling of the run it comes from, and exactly when its header
    shows that the attempts were used up. */
module DeadLetters {
  import opened Attempts
  import opened Delivery
  import opened DeliveryPlaces

  // ----- every dead letter comes from a handling of the run -----

  /** Event k of the run ends the handling of this copy, and the copy is then to be dead-lettered. */
  ghost predicate HandledAt(t: Trigger, events: seq<Event>, k: nat, copy: Copy, reason: string) {
    k < |events| && events[k].Handled?
    && var s := Run(t, INIT, events[..k]);
       && In(s, events[k].pid, Handling) && s.works[events[k].pid].copy == copy
       && AfterHandler(t, copy, events[k].call) == Confirming(true, reason)
  }

  ghost predicate WasHandled(t: Trigger, events: seq<Event>, copy: Copy, reason: string) {
    exists k: nat :: HandledAt(t, events, k, copy, reason)
  }

  ghost predicate FromHandling(t: Trigger, events: seq<Event>, dead: Copy) {
    exists handled, reason :: WasHandled(t, events, handled, reason) && dead == NextCopy(handled, reason)
  }

  predicate ToBeDead(s: Sys, pid: nat) { pid in s.works && s.works[pid].phase.Confirming? && s.works[pid].phase.dead }

  /** All dead letters, and all copies about to become one, come from handlings of the run. */
  ghost predicate Traced(t: Trigger, events: seq<Event>, s: Sys) {
    && (forall i :: 0 <= i < |s.dlq| ==> FromHandling(t, events, s.dlq[i]))
    && (forall pid :: ToBeDead(s, pid) ==> WasHandled(t, events, s.works[pid].copy, s.works[pid].phase.reason))
  }

  lemma {:induction false} RunLast(t: Trigger, s: Sys, events: seq<Event>, e: Event)
    ensures Run(t, s, events + [e]) == Step(t, Run(t, s, events), e)
    decreases |events|
  {
    hide Step;
    if events == [] {
      assert [] + [e] == [e] && [e][1..] == [];
    } else {
      assert (events + [e])[0] == events[0] && (events + [e])[1..] == events[1..] + [e];
      RunLast(t, Step(t, s, events[0]), events[1..], e);
    }
  }

  lemma StillHandled(t: Trigger, events: seq<Event>, e: Event, copy: Copy, reason: string)
    requires WasHandled(t, events, copy, reason)
    ensures WasHandled(t, events + [e], copy, reason)
  {
    hide Run, AfterHandler;
    var k: nat :| HandledAt(t, events, k, copy, reason);
    assert (events + [e])[..k] == events[..k];
    assert HandledAt(t, events + [e], k, copy, reason);
  }

  lemma HandledHere(t: Trigger, events: seq<Event>, e: Event, reason: string)
    requires var s := Run(t, INIT, events);
             && e.Handled? && In(s, e.pid, Handling)
             && AfterHandler(t, s.works[e.pid].copy, e.call) == Confirming(true, reason)
    ensures WasHandled(t, events + [e], Run(t, INIT, events).works[e.pid].copy, reason)
  {
    hide Run, AfterHandler;
    assert (events + [e])[..|events|] == events;
    assert HandledAt(t, events + [e], |events|, Run(t, INIT, events).works[e.pid].copy, reason);
  }

  /** A copy that is to be dead-lettered was so before, or its handling has just ended so. */
  lemma ToBeDeadBefore(t: Trigger, s: Sys, e: Event, pid: nat)
    requires ToBeDead(Step(t, s, e), pid)
    ensures var w := Step(t, s, e).works[pid];
            || (ToBeDead(s, pid) && s.works[pid].copy == w.copy && s.works[pid].phase == w.phase)
            || (e.Handled? && e.pid == pid && In(s, pid, Handling) && s.works[pid].copy == w.copy
                && AfterHandler(t, w.copy, e.call) == w.phase)
  {
    hide AfterHandler, NextCopy, Slots;
  }

  /** The dead letters after a step: those before, and one for a copy that was to be dead-lettered. */
  lemma DeadBefore(t: Trigger, s: Sys, e: Event, i: nat)
    requires i < |Step(t, s, e).dlq|
    ensures var u := Step(t, s, e);
            || (i < |s.dlq| && u.dlq[i] == s.dlq[i])
            || (e.Published? && ToBeDead(s, e.pid)
                && u.dlq[i] == NextCopy(s.works[e.pid].copy, s.works[e.pid].phase.reason))
  {
    hide AfterHandler, NextCopy, Slots;
  }

  lemma StepTraced(t: Trigger, events: seq<Event>, e: Event)
    requires Traced(t, events, Run(t, INIT, events))
    ensures Traced(t, events + [e], Step(t, Run(t, INIT, events), e))
  {
    hide Run, Step, NextCopy, AfterHandler, WasHandled, ToBeDead;
    var s := Run(t, INIT, events);
    var u := Step(t, s, e);
    forall pid | ToBeDead(u, pid)
      ensures pid in u.works && u.works[pid].phase.Confirming?
      ensures WasHandled(t, events + [e], u.works[pid].copy, u.works[pid].phase.reason)
    {
      IsToBeDead(u, pid);
      IsToBeDead(s, pid);
      ToBeDeadBefore(t, s, e, pid);
      if ToBeDead(s, pid) {
        StillHandled(t, events, e, s.works[pid].copy, s.works[pid].phase.reason);
      } else {
        HandledHere(t, events, e, u.works[pid].phase.reason);
      }
    }
    forall i | 0 <= i < |u.dlq| ensures FromHandling(t, events + [e], u.dlq[i]) {
      DeadBefore(t, s, e, i);
      if i < |s.dlq| && u.dlq[i] == s.dlq[i] {
        assert FromHandling(t, events, s.dlq[i]);
        var handled, reason :| WasHandled(t, events, handled, reason) && s.dlq[i] == NextCopy(handled, reason);
        StillHandled(t, events, e, handled, reason);
      } else {
        IsToBeDead(s, e.pid);
        StillHandled(t, events, e, s.works[e.pid].copy, s.works[e.pid].phase.reason);
      }
    }
  }

  lemma IsToBeDead(s: Sys, pid: nat)
    ensures ToBeDead(s, pid) <==> pid in s.works && s.works[pid].phase.Confirming? && s.works[pid].phase.dead
  {
  }

  lemma {:induction false} RunTraced(t: Trigger, events: seq<Event>)
    ensures Traced(t, events, Run(t, INIT, events))
    decreases |events|
  {
    if events != [] {
      hide Step, Traced;
      var m := |events| - 1;
      assert events == events[..m] + [events[m]];
      RunTraced(t, events[..m]);
      StepTraced(t, events[..m], events[m]);
      RunLast(t, INIT, events[..m], events[m]);
    } else {
      assert Run(t, INIT, events) == INIT;
    }
  }

  /** The count in the header of the next copy is the next one, cut to 32 bits. */
  lemma NextCut(count: Int64)
    ensures var r := (count + 1) % 0x1_0000_0000;
            NextAttempts(count) == if r < TWO31 then r else r - 0x1_0000_0000
  {
    assert Wrap64(count + 1) % 0x1_0000_0000 == (count + 1) % 0x1_0000_0000;
  }

  /** The header of a dead letter shows the used-up count exactly if that count, cut to 32 bits, is still at least
      MaxAttempts; for a count that an earlier publish wrote, if it is not the largest int32. */
  lemma DeadHeader(t: Trigger, handled: Copy, reason: string)
    requires ShouldDlq(t, FromHeaders(handled.headers))
    ensures var count, shown := FromHeaders(handled.headers), FromHeaders(NextCopy(handled, reason).headers);
            && (shown >= t.maxAttempts <==> t.maxAttempts <= (count + 1) % 0x1_0000_0000 < TWO31)
            && (count < TWO31 ==> (shown >= t.maxAttempts <==> count + 1 < TWO31))
  {
    hide FromHeaders, NextCopy, NextAttempts;
    UsedUpCount(t, FromHeaders(handled.headers));
    NextCopyCount(handled, reason);
    NextCut(FromHeaders(handled.headers));
  }

  lemma UsedUpCount(t: Trigger, count: Int64)
    requires ShouldDlq(t, count)
    ensures 0 < t.maxAttempts <= count + 1 < TWO63
  {
  }

  /** Whatever stands in the dead-letter queue, in any reachable state, is the next copy of one that was handled in this
      run, at event k, with a count whose successor was at least MaxAttempts; and its header says so exactly if that
      successor, cut to 32 bits, still is. */
  lemma DeadAreExhausted(t: Trigger, events: seq<Event>, i: nat) returns (k: nat, handled: Copy, reason: string)
    requires i < |Run(t, INIT, events).dlq|
    ensures HandledAt(t, events, k, handled, reason)
    ensures var dead, count := Run(t, INIT, events).dlq[i], FromHeaders(handled.headers);
            && dead == NextCopy(handled, reason) && count + 1 >= t.maxAttempts > 0
            && (FromHeaders(dead.headers) >= t.maxAttempts
                <==> t.maxAttempts <= (count + 1) % 0x1_0000_0000 < TWO31)
  {
    RunTraced(t, events);
    hide Run, NextCopy, FromHeaders, AfterHandler, ShouldDlq;
    assert FromHandling(t, events, Run(t, INIT, events).dlq[i]);
    handled, reason :| WasHandled(t, events, handled, reason)
                       && Run(t, INIT, events).dlq[i] == NextCopy(handled, reason);
    k :| HandledAt(t, events, k, handled, reason);
    DeadVerdict(t, handled, events[k].call);
    UsedUpCount(t, FromHeaders(handled.headers));
    DeadHeader(t, handled, reason);
  }

  // ----- what a sender can know: the count in the header that it sends -----

  /** With this count in a message's header, its dead letter shows at least MaxAttempts. */
  predicate ShowsLimit(t: Trigger, count: Int64) {
    if t.maxAttempts <= count + 1 < TWO63 then t.maxAttempts <= (count + 1) % 0x1_0000_0000 < TWO31
    else t.maxAttempts > TWO31 || (t.maxAttempts < TWO31 && (count + 1) % 0x1_0000_0000 != TWO31 - 1)
  }

  /** A retry changes nothing in that. */
  lemma RetryShows(t: Trigger, count: Int64)
    requires Limited(t) && t.maxAttempts < TWO63 && !ShouldDlq(t, count)
    ensures ShowsLimit(t, NextAttempts(count)) <==> ShowsLimit(t, count)
  {
    NextCut(count);
    hide NextAttempts, Wrap32;
    var r := (count + 1) % 0x1_0000_0000;
    assert NextAttempts(count) == if r < TWO31 then r else r - 0x1_0000_0000;
  }

  lemma UsedUpShows(t: Trigger, copy: Copy, reason: string)
    requires ShouldDlq(t, FromHeaders(copy.headers))
    ensures FromHeaders(NextCopy(copy, reason).headers) >= t.maxAttempts <==> ShowsLimit(t, FromHeaders(copy.headers))
  {
    DeadHeader(t, copy, reason);
  }

  predicate Fine(t: Trigger, copy: Copy, mid: nat) { copy.mid == mid ==> ShowsLimit(t, FromHeaders(copy.headers)) }

  /** A goroutine on its way to a publish: to the dead-letter queue exactly when the attempts are used up. */
  predicate RightWay(t: Trigger, w: Work, mid: nat) {
    w.copy.mid == mid ==>
      && (w.phase.BackingOff? ==> !ShouldDlq(t, FromHeaders(w.copy.headers)))
      && (w.phase.Confirming? ==> (w.phase.dead <==> ShouldDlq(t, FromHeaders(w.copy.headers))))
  }

  /** Every copy of the message will show the limit, and every dead letter of it does. */
  ghost predicate AllFine(t: Trigger, s: Sys, mid: nat) {
    && (forall i :: 0 <= i < |s.queue| ==> Fine(t, s.queue[i], mid))
    && (forall tag :: tag in s.unacked ==> Fine(t, s.unacked[tag], mid))
    && (forall tag :: tag in s.received ==> Fine(t, s.received[tag].copy, mid))
    && (forall pid :: pid in s.works ==> Fine(t, s.works[pid].copy, mid) && RightWay(t, s.works[pid], mid))
    && (forall i :: 0 <= i < |s.dlq| ==> Shown(t, s.dlq[i], mid))
  }

  predicate Shown(t: Trigger, dead: Copy, mid: nat) {
    dead.mid == mid ==> FromHeaders(dead.headers) >= t.maxAttempts
  }

  /** The gateway accepts the releases of the message's leases; anything else may fail. */
  predicate Released(s: Sys, e: Event, mid: nat) {
    e.Handled? && WorksOn(s, e.pid, mid) && e.call.Ran? ==> e.call.releaseErr.None?
  }

  predicate ReleasedRun(t: Trigger, s: Sys, events: seq<Event>, mid: nat)
    decreases |events|
  {
    events == [] || (Released(s, events[0], mid) && ReleasedRun(t, Step(t, s, events[0]), events[1..], mid))
  }

  /** The message is sent with this header and no other. */
  predicate SentWith(events: seq<Event>, mid: nat, headers: map<string, Header>) {
    forall k :: 0 <= k < |events| && events[k].Produce? && events[k].mid == mid ==> events[k].headers == headers
  }

  lemma RightAfter(t: Trigger, copy: Copy, call: Call)
    requires Limited(t) && (call.Ran? ==> call.releaseErr.None?)
    ensures var phase := AfterHandler(t, copy, call);
            && (phase.BackingOff? ==> !ShouldDlq(t, FromHeaders(copy.headers)))
            && (phase.Confirming? ==> (phase.dead <==> ShouldDlq(t, FromHeaders(copy.headers))))
  {
  }

  lemma NextFine(t: Trigger, w: Work, reason: string, mid: nat)
    requires Limited(t) && t.maxAttempts < TWO63 && w.phase.Confirming? && RightWay(t, w, mid) && Fine(t, w.copy, mid)
    ensures if w.phase.dead then Shown(t, NextCopy(w.copy, reason), mid) else Fine(t, NextCopy(w.copy, reason), mid)
  {
    if w.copy.mid == mid {
      if w.phase.dead {
        UsedUpShows(t, w.copy, reason);
      } else {
        NextCopyCount(w.copy, reason);
        RetryShows(t, FromHeaders(w.copy.headers));
      }
    }
  }

  lemma StepFine(t: Trigger, s: Sys, e: Event, mid: nat)
    requires Limited(t) && t.dlq != t.queue && t.maxAttempts < TWO63
    requires AllFine(t, s, mid) && Released(s, e, mid)
    requires e.Produce? && e.mid == mid ==> ShowsLimit(t, FromHeaders(e.headers))
    ensures AllFine(t, Step(t, s, e), mid)
  {
    if e.Handled? {
      HandledFine(t, s, e, mid);
    } else if e.Published? {
      PublishedFine(t, s, e, mid);
    } else {
      OtherFine(t, s, e, mid);
    }
  }

  lemma OtherFine(t: Trigger, s: Sys, e: Event, mid: nat)
    requires !e.Handled? && !e.Published? && AllFine(t, s, mid)
    requires e.Produce? && e.mid == mid ==> ShowsLimit(t, FromHeaders(e.headers))
    ensures AllFine(t, Step(t, s, e), mid)
  {
    hide Slots, FromHeaders, ShouldDlq, ShowsLimit, Shown;
  }

  lemma HandledFine(t: Trigger, s: Sys, e: Event, mid: nat)
    requires Limited(t) && e.Handled? && AllFine(t, s, mid) && Released(s, e, mid)
    ensures AllFine(t, Step(t, s, e), mid)
  {
    hide AfterHandler, FromHeaders, ShouldDlq, Fine, Shown;
    if In(s, e.pid, Handling) && s.works[e.pid].copy.mid == mid { RightAfter(t, s.works[e.pid].copy, e.call); }
  }

  lemma PublishedFine(t: Trigger, s: Sys, e: Event, mid: nat)
    requires Limited(t) && t.dlq != t.queue && t.maxAttempts < TWO63 && e.Published? && AllFine(t, s, mid)
    ensures AllFine(t, Step(t, s, e), mid)
  {
    hide NextCopy, FromHeaders, ShouldDlq, Fine, Shown, Limited;
    if e.pid in s.works && s.works[e.pid].phase.Confirming? {
      NextFine(t, s.works[e.pid], s.works[e.pid].phase.reason, mid);
    }
  }

  lemma {:induction false} RunFine(t: Trigger, s: Sys, events: seq<Event>, mid: nat, headers: map<string, Header>)
    requires Limited(t) && t.dlq != t.queue && t.maxAttempts < TWO63 && ShowsLimit(t, FromHeaders(headers))
    requires AllFine(t, s, mid) && ReleasedRun(t, s, events, mid) && SentWith(events, mid, headers)
    ensures AllFine(t, Run(t, s, events), mid)
    decreases |events|
  {
    if events != [] {
      hide Step, AllFine, Released, ShowsLimit, FromHeaders;
      StepFine(t, s, events[0], mid);
      RunFine(t, Step(t, s, events[0]), events[1..], mid, headers);
    }
  }

  /** The message fails until it is dead-lettered, and its dead letter does not show the limit. */
  lemma {:induction false} FailsUntilDead(t: Trigger, s: Sys, copy: Copy) returns (events: seq<Event>)
    requires Limited(t) && t.dlq != t.queue && t.maxAttempts < TWO63 && t.maxConcurrency > 0
    requires Alone(s, copy) && !ShowsLimit(t, FromHeaders(copy.headers))
    ensures SmoothRun(t, s, events, copy.mid) && NoProduce(events)
    ensures var u := Run(t, s, events); exists i :: 0 <= i < |u.dlq| && !Shown(t, u.dlq[i], copy.mid)
    decreases !IsInt32(FromHeaders(copy.headers)), TWO31 - FromHeaders(copy.headers)
  {
    hide Run, SmoothRun, Handlings, FromHeaders, NextAttempts, ShowsLimit, Failure, Verdict, Idle;
    var count := FromHeaders(copy.headers);
    var next := FailsOnce(t, s, copy);
    events := Failure(s.nextTag);
    FailureProducesNothing(s.nextTag);
    FailsWhenUsedUp(t, count);
    var u := Run(t, s, events);
    if ShouldDlq(t, count) {
      NextFailsToShow(t, count);
      assert u.dlq[|s.dlq|] == next;
    } else {
      RetryShows(t, count);
      FailsLonger(t, count);
      var rest := FailsUntilDead(t, u, next);
      HandlingsTogether(t, s, events, rest, copy.mid);
      events := events + rest;
    }
  }

  lemma FailsWhenUsedUp(t: Trigger, count: Int64)
    ensures Verdict(t, count, FAILS).Dlq? <==> ShouldDlq(t, count)
  {
  }

  lemma NextFailsToShow(t: Trigger, count: Int64)
    requires ShouldDlq(t, count) && !ShowsLimit(t, count)
    ensures NextAttempts(count) < t.maxAttempts
  {
  }

  predicate IsInt32(count: int) { -TWO31 <= count < TWO31 }

  lemma FailsLonger(t: Trigger, count: Int64)
    requires Limited(t) && t.maxAttempts < TWO63 && !ShouldDlq(t, count) && !ShowsLimit(t, count)
    ensures IsInt32(NextAttempts(count)) && (IsInt32(count) ==> NextAttempts(count) == count + 1)
  {
  }

  ghost predicate AlwaysShown(t: Trigger, mid: nat, headers: map<string, Header>) {
    forall events, i | ReleasedRun(t, INIT, events, mid) && SentWith(events, mid, headers)
                       && 0 <= i < |Run(t, INIT, events).dlq| ::
      Shown(t, Run(t, INIT, events).dlq[i], mid)
  }

  lemma {:induction false} SmoothIsReleased(t: Trigger, s: Sys, events: seq<Event>, mid: nat)
    requires SmoothRun(t, s, events, mid)
    ensures ReleasedRun(t, s, events, mid)
    decreases |events|
  {
    if events != [] {
      hide Step;
      SmoothIsReleased(t, Step(t, s, events[0]), events[1..], mid);
    }
  }

  /** In all runs in which the releases of a message succeed, whatever else fails, its dead letters show at least
      MaxAttempts if and only if the count it is sent with has this property. */
  lemma ShownExactly(t: Trigger, mid: nat, headers: map<string, Header>)
    requires Limited(t) && t.dlq != t.queue && t.maxAttempts < TWO63 && t.maxConcurrency > 0
    ensures AlwaysShown(t, mid, headers) <==> ShowsLimit(t, FromHeaders(headers))
  {
    hide Step, ShowsLimit, FromHeaders, Shown, Limited;
    if ShowsLimit(t, FromHeaders(headers)) {
      forall events, i | ReleasedRun(t, INIT, events, mid) && SentWith(events, mid, headers)
                         && 0 <= i < |Run(t, INIT, events).dlq|
        ensures Shown(t, Run(t, INIT, events).dlq[i], mid)
      {
        RunFine(t, INIT, events, mid, headers);
      }
    } else {
      var e, copy := Produce(mid, headers), Copy(mid, headers);
      SentAlone(t, e, copy);
      var rest := FailsUntilDead(t, Step(t, INIT, e), copy);
      SmoothIsReleased(t, Step(t, INIT, e), rest, mid);
      var events := [e] + rest;
      assert events[1..] == rest;
      assert Run(t, INIT, events) == Run(t, Step(t, INIT, e), rest);
      assert SentWith(events, mid, headers);
    }
  }

  lemma SentAlone(t: Trigger, e: Event, copy: Copy)
    requires e == Produce(copy.mid, copy.headers)
    ensures Alone(Step(t, INIT, e), copy)
  {
  }

  /** For example: a message that is sent with the largest int32 is dead-lettered with the smallest one. */
  lemma DeadLetterWraps(t: Trigger, mid: nat) returns (events: seq<Event>)
    requires 0 < t.maxAttempts <= TWO31 && t.dlq !in {"", t.queue} && t.maxConcurrency > 0
    ensures var s := Run(t, INIT, events); |s.dlq| == 1 && FromHeaders(s.dlq[0].headers) == -TWO31
  {
    var e, copy := Produce(mid, map[ATTEMPTS := OfInt64(TWO31 - 1)]), Copy(mid, map[ATTEMPTS := OfInt64(TWO31 - 1)]);
    LargestCount(t, copy);
    SentAlone(t, e, copy);
    var s := Step(t, INIT, e);
    assert s.dlq == [];
    hide Step, FromHeaders, NextAttempts, SentAway, Failure;
    var next := FailsOnce(t, s, copy);
    events := [e] + Failure(s.nextTag);
    assert events[1..] == Failure(s.nextTag);
    assert Run(t, INIT, events) == Run(t, s, Failure(s.nextTag));
  }

  lemma LargestCount(t: Trigger, copy: Copy)
    requires 0 < t.maxAttempts <= TWO31 && t.dlq !in {"", t.queue}
    requires copy.headers == map[ATTEMPTS := OfInt64(TWO31 - 1)]
    ensures SentAway(t, copy) && NextAttempts(FromHeaders(copy.headers)) == -TWO31
  {
  }
}
