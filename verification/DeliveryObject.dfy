/** handleDelivery and its helpers in their own form: effects on the broker, one after the other.  What the environment
    decides (the run, a cancelled context, what a publish or an ack achieves) comes in as parameters.  The methods are
    proved against the steps of `Delivery`, between which other goroutines may act. */
module DeliveryObject {
  import opened Attempts
  import opened Delivery
  import WorkerMetrics

  /** What follows the handler, in the phase it led to, when nothing interrupts it. */
  function Rest(pid: nat, phase: Phase, canceled: bool, stored: bool, confirmed: bool, arrives: bool): seq<Event> {
    var settle := if confirmed then Event.Acked(pid, arrives) else Nacked(pid, arrives);
    match phase
    case Acking => [Event.Acked(pid, arrives)]
    case Confirming(_, _) => [Published(pid, stored, confirmed), settle]
    case BackingOff(_) =>
      if canceled then [Waited(pid, true), Nacked(pid, arrives)]
      else [Waited(pid, false), Published(pid, stored, confirmed), settle]
    case _ => [Nacked(pid, arrives)]
  }

  /** The events of one handleDelivery. */
  function Script(t: Trigger, pid: nat, copy: Copy, call: Call, canceled: bool, stored: bool, confirmed: bool,
      arrives: bool): seq<Event>
  {
    [Handled(pid, call)] + Rest(pid, AfterHandler(t, copy, call), canceled, stored, confirmed, arrives)
  }

  class Broker {
    const t: Trigger
    const worker: WorkerMetrics.Worker
    var queue: seq<Copy>
    var dlq: seq<Copy>
    var unacked: map<nat, Copy>
    ghost var sent: set<nat>
    ghost var received: map<nat, Received>
    ghost var nextTag: nat
    ghost var epoch: nat
    ghost var works: map<nat, Work>
    ghost var done: set<nat>

    constructor (t: Trigger, worker: WorkerMetrics.Worker)
      ensures this.t == t && this.worker == worker && View() == INIT
    {
      this.t, this.worker := t, worker;
      queue, dlq, unacked := [], [], map[];
      sent, received, nextTag, epoch, works, done := {}, map[], 0, 0, map[], {};
    }

    ghost function View(): Sys
      reads this
    {
      Sys(sent, queue, dlq, unacked, received, nextTag, epoch, works, done)
    }

    method AckDelivery(ghost pid: nat, tag: nat, arrives: bool)
      requires In(View(), pid, Acking) && works[pid].tag == tag
      modifies this`unacked, this`works
      ensures View() == Step(t, old(View()), Event.Acked(pid, arrives))
    {
      if arrives {
        unacked := unacked - {tag};
      }
      works := works - {pid};
    }

    /** The broker puts a nacked delivery back; a tag that is gone is ignored. */
    method NackDelivery(ghost pid: nat, tag: nat, arrives: bool)
      requires In(View(), pid, Nacking) && works[pid].tag == tag
      modifies this`queue, this`unacked, this`works
      ensures View() == Step(t, old(View()), Nacked(pid, arrives))
    {
      if arrives && tag in unacked {
        queue := queue + [unacked[tag]];
        unacked := unacked - {tag};
      }
      works := works - {pid};
    }

    /** publishWithConfirm: nil exactly when the confirm arrives. */
    method PublishWithConfirm(ghost pid: nat, name: string, copy: Copy, attempts: int, reason: string, stored: bool,
        confirmed: bool)
      returns (ok: bool)
      requires pid in works && works[pid].phase.Confirming? && works[pid].copy == copy
          && works[pid].phase.reason == reason
      requires name == if works[pid].phase.dead then t.dlq else t.queue
      requires attempts == Wrap64(FromHeaders(copy.headers) + 1) && (confirmed ==> stored)
      modifies this`queue, this`dlq, this`works
      ensures ok == confirmed
      ensures works == old(works)[pid := old(works)[pid].(phase := if confirmed then Acking else Nacking)]
      ensures View() == Step(t, old(View()), Published(pid, stored, confirmed))
    {
      var headers := PublishingForDelivery(copy.headers, attempts, reason);
      if stored {
        if name == t.queue {
          queue := queue + [Copy(copy.mid, headers)];
        } else {
          dlq := dlq + [Copy(copy.mid, headers)];
        }
      }
      works := works[pid := works[pid].(phase := if confirmed then Acking else Nacking)];
      ok := confirmed;
    }

    /** What both publishing branches do. */
    method Republish(ghost pid: nat, tag: nat, name: string, copy: Copy, attempts: int, reason: string,
                     stored: bool, confirmed: bool, arrives: bool)
      requires pid in works && works[pid].phase.Confirming?
      requires works[pid] == Work(tag, works[pid].epoch, copy, Confirming(works[pid].phase.dead, reason))
      requires name == if works[pid].phase.dead then t.dlq else t.queue
      requires attempts == Wrap64(FromHeaders(copy.headers) + 1) && (confirmed ==> stored)
      modifies this`queue, this`dlq, this`unacked, this`works
      ensures View() == Step(t, Step(t, old(View()), Published(pid, stored, confirmed)),
                             if confirmed then Event.Acked(pid, arrives) else Nacked(pid, arrives))
    {
      hide Publishing, FromHeaders, Step, NextCopy, Store;
      var ok := PublishWithConfirm(pid, name, copy, attempts, reason, stored, confirmed);
      if ok {
        AckDelivery(pid, tag, arrives);
      } else {
        NackDelivery(pid, tag, arrives);
      }
    }

    /** The default branch: the backoff, which a cancelled context ends, then a copy to the trigger's own queue. */
    method RetryLater(ghost pid: nat, tag: nat, copy: Copy, attempts: int, reason: string,
                      canceled: bool, stored: bool, confirmed: bool, arrives: bool)
      requires pid in works && works[pid] == Work(tag, works[pid].epoch, copy, BackingOff(reason))
      requires attempts == Wrap64(FromHeaders(copy.headers) + 1) && (confirmed ==> stored)
      modifies this`queue, this`dlq, this`unacked, this`works
      ensures View() == var waited := Step(t, old(View()), Waited(pid, canceled));
                        if canceled then Step(t, waited, Nacked(pid, arrives))
                        else Step(t, Step(t, waited, Published(pid, stored, confirmed)),
                                  if confirmed then Event.Acked(pid, arrives) else Nacked(pid, arrives))
    {
      hide Publishing, FromHeaders, Step, NextCopy, Store;
      WaitedIs(t, View(), pid, canceled);
      if canceled {
        works := works[pid := works[pid].(phase := Nacking)];
        NackDelivery(pid, tag, arrives);
        return;
      }
      works := works[pid := works[pid].(phase := Confirming(false, reason))];
      Republish(pid, tag, t.queue, copy, attempts, reason, stored, confirmed, arrives);
    }

    /** The switch over the handler's result. */
    method Proceed(ghost pid: nat, tag: nat, copy: Copy, result: Result, canceled: bool, stored: bool, confirmed: bool,
        arrives: bool)
      requires pid in works && works[pid] == Work(tag, works[pid].epoch, copy, PhaseOf(t, result))
          && (confirmed ==> stored)
      modifies this`queue, this`dlq, this`unacked, this`works
      ensures View() == Run(t, old(View()), Rest(pid, PhaseOf(t, result), canceled, stored, confirmed, arrives))
    {
      hide FromHeaders, Publishing, NextCopy, Store, Requeue, Step, Run;
      ghost var start := View();
      ghost var settle := if confirmed then Event.Acked(pid, arrives) else Nacked(pid, arrives);
      var attempts: int := Wrap64(FromHeaders(copy.headers) + 1);
      match result {
        case Ack =>
          RunOne(t, start, Event.Acked(pid, arrives));
          AckDelivery(pid, tag, arrives);
        case Dlq(reason) =>
          if t.dlq == "" {
            RunOne(t, start, Nacked(pid, arrives));
            NackDelivery(pid, tag, arrives);
            return;
          }
          RunTwo(t, start, Published(pid, stored, confirmed), settle);
          Republish(pid, tag, t.dlq, copy, attempts, reason, stored, confirmed, arrives);
        case Retry(reason) =>
          if canceled {
            RunTwo(t, start, Waited(pid, true), Nacked(pid, arrives));
          } else {
            RunThree(t, start, Waited(pid, false), Published(pid, stored, confirmed), settle);
          }
          RetryLater(pid, tag, copy, attempts, reason, canceled, stored, confirmed, arrives);
      }
    }

    method HandleDelivery(ghost pid: nat, tag: nat, copy: Copy, call: Call, canceled: bool, stored: bool,
        confirmed: bool, arrives: bool)
      requires In(View(), pid, Handling) && works[pid].tag == tag && works[pid].copy == copy && (confirmed ==> stored)
      modifies this, worker.metrics
      ensures View() == Run(t, old(View()), Script(t, pid, copy, call, canceled, stored, confirmed, arrives))
      ensures worker.metrics.triggers
           == WorkerMetrics.Conclude(WorkerMetrics.Receive(old(worker.metrics.triggers), t.id), t.id,
                                     Verdict(t, FromHeaders(copy.headers), call))
    {
      hide Verdict, FromHeaders, Rest, Step, Run;
      ghost var start := View();
      var result, released := worker.HandleMessage(t, FromHeaders(copy.headers), call);
      works := works[pid := works[pid].(phase := PhaseOf(t, result))];
      done := if result == Ack then done + {copy.mid} else done;
      HandledIs(t, start, pid, call);
      RunFirst(t, start, Handled(pid, call),
        Rest(pid, AfterHandler(t, copy, call), canceled, stored, confirmed, arrives));
      Proceed(pid, tag, copy, result, canceled, stored, confirmed, arrives);
    }
  }

  lemma HandledIs(t: Trigger, s: Sys, pid: nat, call: Call)
    requires In(s, pid, Handling)
    ensures var w := s.works[pid]; var phase := AfterHandler(t, w.copy, call);
            Step(t, s, Handled(pid, call))
            == s.(works := s.works[pid := w.(phase := phase)],
                done := if phase == Acking then s.done + {w.copy.mid} else s.done)
  {
  }

  lemma WaitedIs(t: Trigger, s: Sys, pid: nat, canceled: bool)
    requires pid in s.works && s.works[pid].phase.BackingOff?
    ensures var w := s.works[pid];
            Step(t, s, Waited(pid, canceled))
            == s.(works := s.works[pid := w.(phase := if canceled then Nacking else Confirming(false, w.phase.reason))])
  {
  }

  lemma RunFirst(t: Trigger, s: Sys, a: Event, rest: seq<Event>)
    ensures Run(t, s, [a] + rest) == Run(t, Step(t, s, a), rest)
  {
    hide Step;
    assert ([a] + rest)[1..] == rest;
  }

  lemma RunOne(t: Trigger, s: Sys, a: Event)
    ensures Run(t, s, [a]) == Step(t, s, a)
  {
    hide Step;
    RunFirst(t, s, a, []);
    assert [a] + [] == [a];
  }

  lemma RunTwo(t: Trigger, s: Sys, a: Event, b: Event)
    ensures Run(t, s, [a, b]) == Step(t, Step(t, s, a), b)
  {
    hide Step, Run;
    RunFirst(t, s, a, [b]);
    RunOne(t, Step(t, s, a), b);
    assert [a] + [b] == [a, b];
  }

  lemma RunThree(t: Trigger, s: Sys, a: Event, b: Event, c: Event)
    ensures Run(t, s, [a, b, c]) == Step(t, Step(t, Step(t, s, a), b), c)
  {
    hide Step, Run;
    RunFirst(t, s, a, [b, c]);
    RunTwo(t, Step(t, s, a), b, c);
    assert [a] + [b, c] == [a, b, c];
  }
}
