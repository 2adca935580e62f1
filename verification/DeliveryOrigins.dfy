/** Where the copies in the queues of a broker come from, among all triggers: each was sent to that queue, or a consumer
    of it retried it, or a trigger that dead-letters into the queue had used up its attempts. */
module DeliveryOrigins {
  import DeadLetters
  import opened Attempts
  import opened Delivery
  import opened DeliveryNet

  /** Event k of the run ends the handling of this copy by trigger i, in this phase. */
  ghost predicate HandledAt(ts: seq<Trigger>, events: seq<NetEvent>, k: nat, i: nat, copy: Copy, phase: Phase) {
    k < |events| && events[k].At? && events[k].client == i < |ts| && events[k].event.Handled?
    && var s, e := View(ts, NetRun(ts, Start(ts), events[..k]), i), events[k].event;
       In(s, e.pid, Handling) && s.works[e.pid].copy == copy && AfterHandler(ts[i], copy, e.call) == phase
  }

  ghost predicate WasHandled(ts: seq<Trigger>, events: seq<NetEvent>, i: nat, copy: Copy, phase: Phase) {
    exists k: nat :: HandledAt(ts, events, k, i, copy, phase)
  }

  /** Event k of the run sends the message, with this header, for the first time. */
  predicate SentAt(ts: seq<Trigger>, events: seq<NetEvent>, k: nat, queue: string, copy: Copy) {
    k < |events| && events[k] == Send(queue, copy.mid, copy.headers)
    && copy.mid !in NetRun(ts, Start(ts), events[..k]).sent
  }

  ghost predicate SentTo(ts: seq<Trigger>, events: seq<NetEvent>, queue: string, copy: Copy) {
    exists k: nat :: SentAt(ts, events, k, queue, copy)
  }

  ghost predicate RetriedTo(ts: seq<Trigger>, events: seq<NetEvent>, queue: string, copy: Copy) {
    exists i: nat, handled: Copy, reason: string ::
      WasHandled(ts, events, i, handled, BackingOff(reason)) && i < |ts| && ts[i].queue == queue
      && copy == NextCopy(handled, reason)
  }

  ghost predicate DeadLetteredTo(ts: seq<Trigger>, events: seq<NetEvent>, queue: string, copy: Copy) {
    exists i: nat, handled: Copy, reason: string ::
      WasHandled(ts, events, i, handled, Confirming(true, reason)) && i < |ts| && ts[i].dlq == queue
      && copy == NextCopy(handled, reason)
  }

  ghost predicate Comes(ts: seq<Trigger>, events: seq<NetEvent>, queue: string, copy: Copy) {
    SentTo(ts, events, queue, copy) || RetriedTo(ts, events, queue, copy) || DeadLetteredTo(ts, events, queue, copy)
  }

  /** How the handling ended that a goroutine's publish follows. */
  function Ending(phase: Phase): Phase { if phase.Confirming? && !phase.dead then BackingOff(phase.reason) else phase }

  predicate Publishes(s: Sys, pid: nat) {
    pid in s.works && (s.works[pid].phase.BackingOff? || s.works[pid].phase.Confirming?)
  }

  /** Every queued copy comes to its queue, every unacked one came from it, and every publish follows a handling. */
  ghost predicate Traced(ts: seq<Trigger>, events: seq<NetEvent>, n: Net)
    requires Fits(ts, n)
  {
    && (forall name, k | 0 <= k < |QueueOf(n, name)| :: Comes(ts, events, name, QueueOf(n, name)[k]))
    && (forall i, tag | 0 <= i < |ts| && tag in n.clients[i].unacked ::
          Comes(ts, events, ts[i].queue, n.clients[i].unacked[tag]))
    && (forall i, pid | 0 <= i < |ts| && Publishes(View(ts, n, i), pid) ::
          var w := View(ts, n, i).works[pid]; WasHandled(ts, events, i, w.copy, Ending(w.phase)))
  }

  lemma {:induction false} RunLast(ts: seq<Trigger>, n: Net, events: seq<NetEvent>, e: NetEvent)
    requires Fits(ts, n)
    ensures NetRun(ts, n, events + [e]) == NetStep(ts, NetRun(ts, n, events), e)
    decreases |events|
  {
    hide NetStep;
    if events == [] {
      assert [] + [e] == [e] && [e][1..] == [];
    } else {
      assert (events + [e])[0] == events[0] && (events + [e])[1..] == events[1..] + [e];
      RunLast(ts, NetStep(ts, n, events[0]), events[1..], e);
    }
  }

  // ----- what was remains so -----

  lemma StillHandled(ts: seq<Trigger>, events: seq<NetEvent>, e: NetEvent, i: nat, copy: Copy, phase: Phase)
    requires WasHandled(ts, events, i, copy, phase)
    ensures WasHandled(ts, events + [e], i, copy, phase)
  {
    hide NetRun, AfterHandler;
    var k: nat :| HandledAt(ts, events, k, i, copy, phase);
    assert (events + [e])[..k] == events[..k];
    assert HandledAt(ts, events + [e], k, i, copy, phase);
  }

  lemma StillComes(ts: seq<Trigger>, events: seq<NetEvent>, e: NetEvent, queue: string, copy: Copy)
    requires Comes(ts, events, queue, copy)
    ensures Comes(ts, events + [e], queue, copy)
  {
    hide WasHandled, NextCopy, NetRun;
    if SentTo(ts, events, queue, copy) {
      var k: nat :| SentAt(ts, events, k, queue, copy);
      assert (events + [e])[..k] == events[..k];
      assert SentAt(ts, events + [e], k, queue, copy);
    } else if RetriedTo(ts, events, queue, copy) {
      var i: nat, handled: Copy, reason: string :|
        WasHandled(ts, events, i, handled, BackingOff(reason)) && i < |ts| && ts[i].queue == queue
        && copy == NextCopy(handled, reason);
      StillHandled(ts, events, e, i, handled, BackingOff(reason));
    } else {
      var i: nat, handled: Copy, reason: string :|
        WasHandled(ts, events, i, handled, Confirming(true, reason)) && i < |ts| && ts[i].dlq == queue
        && copy == NextCopy(handled, reason);
      StillHandled(ts, events, e, i, handled, Confirming(true, reason));
    }
  }

  lemma {:induction false} HandledHere(ts: seq<Trigger>, events: seq<NetEvent>, i: nat, e: Event)
    requires i < |ts| && e.Handled? && In(View(ts, NetRun(ts, Start(ts), events), i), e.pid, Handling)
    ensures var w := View(ts, NetRun(ts, Start(ts), events), i).works[e.pid];
            WasHandled(ts, events + [At(i, e)], i, w.copy, AfterHandler(ts[i], w.copy, e.call))
  {
    hide NetRun, AfterHandler;
    var copy := View(ts, NetRun(ts, Start(ts), events), i).works[e.pid].copy;
    assert (events + [At(i, e)])[..|events|] == events;
    assert HandledAt(ts, events + [At(i, e)], |events|, i, copy, AfterHandler(ts[i], copy, e.call));
  }

  // ----- what one step of a trigger does -----

  /** A publish that is under way was so before, or follows the handling that has just ended. */
  lemma PublishBefore(t: Trigger, s: Sys, e: Event, pid: nat)
    requires Publishes(Step(t, s, e), pid)
    ensures var w := Step(t, s, e).works[pid];
            || (Publishes(s, pid) && s.works[pid].copy == w.copy && Ending(s.works[pid].phase) == Ending(w.phase))
            || (e.Handled? && e.pid == pid && In(s, pid, Handling) && s.works[pid].copy == w.copy
                && AfterHandler(t, w.copy, e.call) == w.phase == Ending(w.phase))
  {
    NoPlainConfirming(t, s, e, pid);
    hide AfterHandler, NextCopy, Slots;
  }

  /** A handling ends in a backoff before it publishes to the trigger's own queue. */
  lemma NoPlainConfirming(t: Trigger, s: Sys, e: Event, pid: nat)
    ensures e.Handled? && pid in s.works ==> Ending(AfterHandler(t, s.works[pid].copy, e.call))
                                             == AfterHandler(t, s.works[pid].copy, e.call)
  {
  }

  lemma UnackedBefore(t: Trigger, s: Sys, e: Event, tag: nat)
    requires tag in Step(t, s, e).unacked
    ensures var copy := Step(t, s, e).unacked[tag];
            (tag in s.unacked && s.unacked[tag] == copy) || copy in s.queue
  {
    hide AfterHandler, NextCopy, Slots;
  }

  /** The copies that a step puts into the trigger's queue. */
  lemma QueueBefore(t: Trigger, s: Sys, e: Event, k: nat)
    requires !e.Produce? && k < |Step(t, s, e).queue|
    ensures var copy := Step(t, s, e).queue[k];
            || copy in s.queue
            || (exists tag :: tag in s.unacked && s.unacked[tag] == copy)
            || (e.Published? && Publishes(s, e.pid) && s.works[e.pid].phase.Confirming?
                && (s.works[e.pid].phase.dead ==> t.dlq == t.queue)
                && copy == NextCopy(s.works[e.pid].copy, s.works[e.pid].phase.reason))
  {
    hide AfterHandler, NextCopy, Slots;
  }

  /** The copy that a goroutine of trigger i publishes comes where it is published to. */
  lemma PublishedComes(ts: seq<Trigger>, events: seq<NetEvent>, n: Net, i: nat, pid: nat)
    requires Fits(ts, n) && i < |ts| && Traced(ts, events, n)
    requires Publishes(View(ts, n, i), pid) && View(ts, n, i).works[pid].phase.Confirming?
    ensures var w := View(ts, n, i).works[pid];
            Comes(ts, events, if w.phase.dead then ts[i].dlq else ts[i].queue, NextCopy(w.copy, w.phase.reason))
  {
    hide WasHandled, NextCopy, Comes;
    var w := View(ts, n, i).works[pid];
    assert WasHandled(ts, events, i, w.copy, Ending(w.phase));
    var copy, queue := NextCopy(w.copy, w.phase.reason), if w.phase.dead then ts[i].dlq else ts[i].queue;
    if w.phase.dead {
      assert DeadLetteredTo(ts, events, queue, copy);
    } else {
      assert RetriedTo(ts, events, queue, copy);
    }
    OneWay(ts, events, queue, copy);
  }

  lemma OneWay(ts: seq<Trigger>, events: seq<NetEvent>, queue: string, copy: Copy)
    requires DeadLetteredTo(ts, events, queue, copy) || RetriedTo(ts, events, queue, copy)
    ensures Comes(ts, events, queue, copy)
  {
  }

  // ----- every step keeps it -----

  lemma QueuesTraced(ts: seq<Trigger>, events: seq<NetEvent>, n: Net, i: nat, e: Event, name: string, k: nat)
    requires Fits(ts, n) && i < |ts| && !e.Produce? && Traced(ts, events, n)
    requires k < |QueueOf(NetStep(ts, n, At(i, e)), name)|
    ensures Comes(ts, events, name, QueueOf(NetStep(ts, n, At(i, e)), name)[k])
  {
    hide Comes, WasHandled, Step, NextCopy, Publishes;
    var s := View(ts, n, i);
    QueueAfter(ts, n, i, e, name);
    if name == ts[i].queue {
      QueueBefore(ts[i], s, e, k);
      var copy := Step(ts[i], s, e).queue[k];
      assert s.queue == QueueOf(n, name) && s.unacked == n.clients[i].unacked;
      if copy in s.queue {
        var at :| 0 <= at < |s.queue| && s.queue[at] == copy;
        assert Comes(ts, events, name, QueueOf(n, name)[at]);
      } else if tag :| tag in s.unacked && s.unacked[tag] == copy {
        assert Comes(ts, events, ts[i].queue, n.clients[i].unacked[tag]);
      } else {
        IsPublishing(s, e.pid);
        PublishedComes(ts, events, n, i, e.pid);
      }
    } else if name == ts[i].dlq {
      if Step(ts[i], s, e).dlq != s.dlq {
        DeadAppended(ts[i], s, e);
        IsPublishing(s, e.pid);
        PublishedComes(ts, events, n, i, e.pid);
      }
    }
  }

  lemma IsPublishing(s: Sys, pid: nat)
    ensures Publishes(s, pid)
            <==> pid in s.works && (s.works[pid].phase.BackingOff? || s.works[pid].phase.Confirming?)
  {
  }

  lemma UnackedTraced(ts: seq<Trigger>, events: seq<NetEvent>, n: Net, i: nat, e: Event, j: nat, tag: nat)
    requires Fits(ts, n) && i < |ts| && j < |ts| && !e.Produce? && Traced(ts, events, n)
    requires tag in NetStep(ts, n, At(i, e)).clients[j].unacked
    ensures Comes(ts, events, ts[j].queue, NetStep(ts, n, At(i, e)).clients[j].unacked[tag])
  {
    hide Comes, WasHandled, Step, Publishes;
    if i == j {
      OwnView(ts, n, i, e);
      UnackedBefore(ts[i], View(ts, n, i), e, tag);
      assert View(ts, n, i).queue == QueueOf(n, ts[i].queue);
      assert View(ts, NetStep(ts, n, At(i, e)), i).unacked == NetStep(ts, n, At(i, e)).clients[i].unacked;
    }
  }

  lemma WorksTraced(ts: seq<Trigger>, events: seq<NetEvent>, i: nat, e: Event, j: nat, pid: nat)
    requires i < |ts| && j < |ts| && !e.Produce? && Traced(ts, events, NetRun(ts, Start(ts), events))
    requires Publishes(View(ts, NetStep(ts, NetRun(ts, Start(ts), events), At(i, e)), j), pid)
    ensures var w := View(ts, NetStep(ts, NetRun(ts, Start(ts), events), At(i, e)), j).works[pid];
            WasHandled(ts, events + [At(i, e)], j, w.copy, Ending(w.phase))
  {
    hide Comes, WasHandled, Step, NetRun, Ending, AfterHandler;
    var n := NetRun(ts, Start(ts), events);
    var s := View(ts, n, j);
    if i == j {
      OwnView(ts, n, i, e);
      PublishBefore(ts[i], s, e, pid);
      if Publishes(s, pid) {
        StillHandled(ts, events, At(i, e), i, s.works[pid].copy, Ending(s.works[pid].phase));
      } else {
        HandledHere(ts, events, i, e);
      }
    } else {
      OtherView(ts, n, i, e, j);
      StillHandled(ts, events, At(i, e), j, s.works[pid].copy, Ending(s.works[pid].phase));
    }
  }

  lemma ActTraced(ts: seq<Trigger>, events: seq<NetEvent>, i: nat, e: Event)
    requires i < |ts| && !e.Produce? && Traced(ts, events, NetRun(ts, Start(ts), events))
    ensures Traced(ts, events + [At(i, e)], NetStep(ts, NetRun(ts, Start(ts), events), At(i, e)))
  {
    hide Comes, WasHandled, NetStep, NetRun, Publishes, Ending;
    var n := NetRun(ts, Start(ts), events);
    var m := NetStep(ts, n, At(i, e));
    forall name, k | 0 <= k < |QueueOf(m, name)| ensures Comes(ts, events + [At(i, e)], name, QueueOf(m, name)[k]) {
      QueuesTraced(ts, events, n, i, e, name, k);
      StillComes(ts, events, At(i, e), name, QueueOf(m, name)[k]);
    }
    forall j, tag | 0 <= j < |ts| && tag in m.clients[j].unacked
      ensures Comes(ts, events + [At(i, e)], ts[j].queue, m.clients[j].unacked[tag])
    {
      UnackedTraced(ts, events, n, i, e, j, tag);
      StillComes(ts, events, At(i, e), ts[j].queue, m.clients[j].unacked[tag]);
    }
    forall j, pid | 0 <= j < |ts| && Publishes(View(ts, m, j), pid)
      ensures pid in View(ts, m, j).works
      ensures var w := View(ts, m, j).works[pid]; WasHandled(ts, events + [At(i, e)], j, w.copy, Ending(w.phase))
    {
      IsPublishing(View(ts, m, j), pid);
      WorksTraced(ts, events, i, e, j, pid);
    }
  }

  /** Nothing is done, or a message is sent. */
  lemma {:induction false} RestTraced(ts: seq<Trigger>, events: seq<NetEvent>, n: Net, e: NetEvent)
    requires n == NetRun(ts, Start(ts), events) && !Acts(ts, e) && Traced(ts, events, n)
    ensures Traced(ts, events + [e], NetStep(ts, n, e))
  {
    hide Comes, WasHandled, Ending, Step, NetRun;
    var m := NetStep(ts, n, e);
    forall name, k | 0 <= k < |QueueOf(m, name)| ensures Comes(ts, events + [e], name, QueueOf(m, name)[k]) {
      if k < |QueueOf(n, name)| {
        StillComes(ts, events, e, name, QueueOf(n, name)[k]);
      } else {
        SentHere(ts, events, e, QueueOf(m, name)[k]);
      }
    }
    forall j, tag | 0 <= j < |ts| && tag in m.clients[j].unacked
      ensures Comes(ts, events + [e], ts[j].queue, m.clients[j].unacked[tag])
    {
      StillComes(ts, events, e, ts[j].queue, m.clients[j].unacked[tag]);
    }
    forall j, pid | 0 <= j < |ts| && Publishes(View(ts, m, j), pid)
      ensures var w := View(ts, m, j).works[pid]; WasHandled(ts, events + [e], j, w.copy, Ending(w.phase))
    {
      assert Publishes(View(ts, n, j), pid);
      var w := View(ts, n, j).works[pid];
      StillHandled(ts, events, e, j, w.copy, Ending(w.phase));
    }
  }

  lemma {:induction false} SentHere(ts: seq<Trigger>, events: seq<NetEvent>, e: NetEvent, copy: Copy)
    requires e.Send? && copy == Copy(e.mid, e.headers) && e.mid !in NetRun(ts, Start(ts), events).sent
    ensures Comes(ts, events + [e], e.queue, copy)
  {
    hide NetRun;
    assert (events + [e])[..|events|] == events;
    assert SentAt(ts, events + [e], |events|, e.queue, copy);
  }

  lemma {:induction false} RunTraced(ts: seq<Trigger>, events: seq<NetEvent>)
    ensures Traced(ts, events, NetRun(ts, Start(ts), events))
    decreases |events|
  {
    if events != [] {
      hide NetStep, Traced;
      var m := |events| - 1;
      assert events == events[..m] + [events[m]];
      RunTraced(ts, events[..m]);
      RunLast(ts, Start(ts), events[..m], events[m]);
      if Acts(ts, events[m]) {
        ActTraced(ts, events[..m], events[m].client, events[m].event);
      } else {
        RestTraced(ts, events[..m], NetRun(ts, Start(ts), events[..m]), events[m]);
      }
    } else {
      NothingTraced(ts);
    }
  }

  lemma NothingTraced(ts: seq<Trigger>)
    ensures Traced(ts, [], Start(ts))
  {
  }

  /** In every reachable state of all triggers together: each copy in a queue was sent to it with its header, or is the
      next copy of one that a consumer of the queue handled in this run and retried, or of one that a trigger with this
      dead-letter queue handled in this run when its attempts were used up. */
  lemma EveryCopyComes(ts: seq<Trigger>, events: seq<NetEvent>, queue: string, k: nat)
    requires k < |QueueOf(NetRun(ts, Start(ts), events), queue)|
    ensures Comes(ts, events, queue, QueueOf(NetRun(ts, Start(ts), events), queue)[k])
  {
    hide Comes, NetRun;
    RunTraced(ts, events);
  }

  /** So in a queue that no trigger consumes and nobody sends to, every copy was handled in this run, at event k, by a
      trigger that dead-letters into it, with a count whose successor was at least its MaxAttempts; and its header says
      so exactly if that successor, cut to 32 bits, still is. */
  lemma OnlyDeadLetters(ts: seq<Trigger>, events: seq<NetEvent>, queue: string, at: nat)
    returns (k: nat, i: nat, handled: Copy, reason: string)
    requires at < |QueueOf(NetRun(ts, Start(ts), events), queue)|
    requires forall i | 0 <= i < |ts| :: ts[i].queue != queue
    requires forall e :: e in events && e.Send? ==> e.queue != queue
    ensures HandledAt(ts, events, k, i, handled, Confirming(true, reason)) && i < |ts| && ts[i].dlq == queue
    ensures var dead, count := QueueOf(NetRun(ts, Start(ts), events), queue)[at], FromHeaders(handled.headers);
            && dead == NextCopy(handled, reason) && count + 1 >= ts[i].maxAttempts > 0
            && (FromHeaders(dead.headers) >= ts[i].maxAttempts
                <==> ts[i].maxAttempts <= (count + 1) % 0x1_0000_0000 < TWO31)
  {
    hide NetRun, NextCopy, FromHeaders, AfterHandler, ShouldDlq;
    EveryCopyComes(ts, events, queue, at);
    var dead := QueueOf(NetRun(ts, Start(ts), events), queue)[at];
    assert DeadLetteredTo(ts, events, queue, dead);
    i, handled, reason :| WasHandled(ts, events, i, handled, Confirming(true, reason)) && i < |ts|
                          && ts[i].dlq == queue && dead == NextCopy(handled, reason);
    k :| HandledAt(ts, events, k, i, handled, Confirming(true, reason));
    DeadVerdict(ts[i], handled, events[k].event.call);
    DeadLetters.UsedUpCount(ts[i], FromHeaders(handled.headers));
    DeadLetters.DeadHeader(ts[i], handled, reason);
  }
}
