/** mqsvc/metrics.go and HandleMessage of mqsvc/worker.go: the counters of each trigger, and what they add up to when
    many messages are handled at once. */
module WorkerMetrics {
  import opened Attempts
  import opened Options

  datatype Counters = Counters(received: int, inflight: int, acked: int, retried: int, dlq: int, errors: int,
    lastError: string)

  const ZERO := Counters(0, 0, 0, 0, 0, 0, "")

  /** A missing entry reads as the zero value. */
  function Of(triggers: map<string, Counters>, id: string): Counters {
    if id in triggers then triggers[id] else ZERO
  }

  function Left(inflight: int): int { if inflight > 0 then inflight - 1 else inflight }

  function Receive(triggers: map<string, Counters>, id: string): map<string, Counters> {
    var v := Of(triggers, id);
    triggers[id := v.(received := v.received + 1, inflight := v.inflight + 1)]
  }

  function Conclude(triggers: map<string, Counters>, id: string, r: Result): map<string, Counters> {
    var v := Of(triggers, id).(inflight := Left(Of(triggers, id).inflight));
    triggers[id :=
      match r
      case Ack => v.(acked := v.acked + 1)
      case Retry(reason) => v.(retried := v.retried + 1, errors := v.errors + 1, lastError := reason)
      case Dlq(reason) => v.(dlq := v.dlq + 1, errors := v.errors + 1, lastError := reason)]
  }

  /** What is counted, counter by counter; nothing else changes, and no other trigger. */
  lemma CountersMean(triggers: map<string, Counters>, id: string, r: Result)
    ensures var was, received := Of(triggers, id), Receive(triggers, id);
            && received.Keys == triggers.Keys + {id}
            && (forall k | k in triggers && k != id :: received[k] == triggers[k])
            && received[id] == was.(received := was.received + 1, inflight := was.inflight + 1)
    ensures var was, ended := Of(triggers, id), Conclude(triggers, id, r);
            && ended.Keys == triggers.Keys + {id} && (forall k | k in triggers && k != id :: ended[k] == triggers[k])
            && ended[id].inflight == (if was.inflight > 0 then was.inflight - 1 else was.inflight)
            && ended[id].received == was.received
            && ended[id].acked == was.acked + (if r.Ack? then 1 else 0)
            && ended[id].retried == was.retried + (if r.Retry? then 1 else 0)
            && ended[id].dlq == was.dlq + (if r.Dlq? then 1 else 0)
            && ended[id].errors == was.errors + (if r.Ack? then 0 else 1)
            && ended[id].lastError == if r.Ack? then was.lastError else r.reason
  {
  }

  class Metrics {
    var triggers: map<string, Counters>

    constructor ()
      ensures triggers == map[]
    {
      triggers := map[];
    }

    method Received(id: string)
      modifies this
      ensures triggers == Receive(old(triggers), id)
    {
      var v := Of(triggers, id);
      v := v.(received := v.received + 1);
      v := v.(inflight := v.inflight + 1);
      triggers := triggers[id := v];
    }

    method Acked(id: string)
      modifies this
      ensures triggers == Conclude(old(triggers), id, Ack)
    {
      var v := Of(triggers, id);
      v := v.(acked := v.acked + 1);
      if v.inflight > 0 {
        v := v.(inflight := v.inflight - 1);
      }
      triggers := triggers[id := v];
    }

    method Retried(id: string, reason: string)
      modifies this
      ensures triggers == Conclude(old(triggers), id, Retry(reason))
    {
      var v := Of(triggers, id);
      v := v.(retried := v.retried + 1, errors := v.errors + 1, lastError := reason);
      if v.inflight > 0 {
        v := v.(inflight := v.inflight - 1);
      }
      triggers := triggers[id := v];
    }

    method DLQed(id: string, reason: string)
      modifies this
      ensures triggers == Conclude(old(triggers), id, Dlq(reason))
    {
      var v := Of(triggers, id);
      v := v.(dlq := v.dlq + 1, errors := v.errors + 1, lastError := reason);
      if v.inflight > 0 {
        v := v.(inflight := v.inflight - 1);
      }
      triggers := triggers[id := v];
    }
  }

  class Worker {
    const metrics: Metrics

    constructor (metrics: Metrics)
      ensures this.metrics == metrics
    {
      this.metrics := metrics;
    }

    /** HandleMessage: `released` is the status sent with the release of the lease, if one was acquired. */
    method HandleMessage(t: Trigger, attempts: Int64, call: Call)
      returns (result: Result, released: Option<string>)
      modifies metrics
      ensures result == Verdict(t, attempts, call)
      ensures released == if call.Ran? then Some(Status(call.invocation)) else None
      ensures metrics.triggers == Conclude(Receive(old(metrics.triggers), t.id), t.id, result)
    {
      metrics.Received(t.id);
      released := None;
      if call.AcquireFailed? {
        if ShouldDlq(t, attempts) {
          metrics.DLQed(t.id, call.err);
          return Dlq(call.err), released;
        }
        metrics.Retried(t.id, call.err);
        return Retry(call.err), released;
      }
      var status := "success";
      if call.invocation.Failed? {
        status := "error";
        if call.invocation.deadline {
          status := "timeout";
        } else if call.invocation.canceled {
          status := "abandoned";
        }
        released := Some(status);
        if call.releaseErr.Some? {
          metrics.Retried(t.id, call.releaseErr.value);
          return Retry(call.releaseErr.value), released;
        }
        if ShouldDlq(t, attempts) {
          metrics.DLQed(t.id, call.invocation.err);
          return Dlq(call.invocation.err), released;
        }
        metrics.Retried(t.id, call.invocation.err);
        return Retry(call.invocation.err), released;
      }
      released := Some(status);
      if call.releaseErr.Some? {
        metrics.Retried(t.id, call.releaseErr.value);
        return Retry(call.releaseErr.value), released;
      }
      metrics.Acked(t.id);
      result := Ack;
    }
  }

  // ----- any interleaving of handlings -----

  datatype Kind = AckKind | RetryKind | DlqKind

  function KindOf(r: Result): Kind {
    match r
    case Ack => AckKind
    case Retry(_) => RetryKind
    case Dlq(_) => DlqKind
  }

  /** `running` are the executions of HandleMessage between receipt and verdict update, `finished` all the others. */
  datatype Sys = Sys(triggers: map<string, Counters>, running: map<nat, string>, finished: multiset<(string, Kind)>)

  datatype Event = Begin(pid: nat, id: string) | Finish(pid: nat, result: Result)

  const INIT := Sys(map[], map[], multiset{})

  function Step(s: Sys, e: Event): Sys {
    match e
    case Begin(pid, id) =>
      if pid in s.running then s
      else s.(triggers := Receive(s.triggers, id), running := s.running[pid := id])
    case Finish(pid, result) =>
      if pid !in s.running then s
      else Sys(Conclude(s.triggers, s.running[pid], result), s.running - {pid},
               s.finished + multiset{(s.running[pid], KindOf(result))})
  }

  function Run(s: Sys, events: seq<Event>): Sys
    decreases |events|
  {
    if events == [] then s else Run(Step(s, events[0]), events[1..])
  }

  function Executions(s: Sys, id: string): set<nat> {
    set pid | pid in s.running && s.running[pid] == id
  }

  /** The books of one trigger balance. */
  predicate Balanced(s: Sys, id: string) {
    var v := Of(s.triggers, id);
    && v.inflight == |Executions(s, id)|
    && v.received == v.inflight + v.acked + v.retried + v.dlq
    && v.errors == v.retried + v.dlq
    && v.acked == s.finished[(id, AckKind)] && v.retried == s.finished[(id, RetryKind)]
    && v.dlq == s.finished[(id, DlqKind)]
  }

  lemma BeginCounts(s: Sys, pid: nat, id: string, other: string)
    requires pid !in s.running
    ensures var t := Step(s, Begin(pid, id));
            |Executions(t, other)| == |Executions(s, other)| + if other == id then 1 else 0
  {
    var t := Step(s, Begin(pid, id));
    if other == id {
      assert Executions(t, other) == Executions(s, other) + {pid};
    } else {
      assert Executions(t, other) == Executions(s, other);
    }
  }

  lemma FinishCounts(s: Sys, pid: nat, result: Result, other: string)
    requires pid in s.running
    ensures var t := Step(s, Finish(pid, result));
            |Executions(s, other)| == |Executions(t, other)| + if other == s.running[pid] then 1 else 0
  {
    var t := Step(s, Finish(pid, result));
    if other == s.running[pid] {
      assert Executions(s, other) == Executions(t, other) + {pid};
    } else {
      assert Executions(s, other) == Executions(t, other);
    }
  }

  lemma StepBalanced(s: Sys, e: Event, id: string)
    requires Balanced(s, id)
    ensures Balanced(Step(s, e), id)
  {
    match e
    case Begin(pid, other) => if pid !in s.running { BeginCounts(s, pid, other, id); }
    case Finish(pid, result) => if pid in s.running { FinishCounts(s, pid, result, id); }
  }

  lemma {:induction false} RunBalanced(s: Sys, events: seq<Event>, id: string)
    requires Balanced(s, id)
    ensures Balanced(Run(s, events), id)
    decreases |events|
  {
    if events != [] {
      StepBalanced(s, events[0], id);
      RunBalanced(Step(s, events[0]), events[1..], id);
    }
  }

  /** Over any interleaving, for every trigger: Received = Inflight + Acked + Retried + DLQ, Errors = Retried + DLQ,
      Inflight is the number of executions under way, and each counter of ends is the number of those ends. */
  lemma Accounting(events: seq<Event>, id: string)
    ensures Balanced(Run(INIT, events), id)
  {
    assert Executions(INIT, id) == {};
    RunBalanced(INIT, events, id);
  }

  /** The guards that keep Inflight from going below zero never take effect. */
  lemma GuardNeverFails(events: seq<Event>, pid: nat)
    requires pid in Run(INIT, events).running
    ensures Of(Run(INIT, events).triggers, Run(INIT, events).running[pid]).inflight > 0
  {
    var s := Run(INIT, events);
    Accounting(events, s.running[pid]);
    assert pid in Executions(s, s.running[pid]);
  }
}
