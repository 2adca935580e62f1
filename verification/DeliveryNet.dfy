/** The triggers of one broker together. They share its queues: several may consume the same one, and the dead-letter
    queue of one may be the queue of another. Each trigger steps as in `Delivery`, on its own view of the broker. */
module DeliveryNet {
  import opened Attempts
  import opened Delivery
  import opened DeliveryPlaces

  /** What is a trigger's alone: its deliveries, tags, channel epoch and goroutines. */
  datatype Client = Client(
    unacked: map<nat, Copy>, received: map<nat, Received>, nextTag: nat, epoch: nat, works: map<nat, Work>)

  datatype Net = Net(queues: map<string, seq<Copy>>, sent: set<nat>, done: set<nat>, clients: seq<Client>)

  datatype NetEvent =
    | Send(queue: string, mid: nat, headers: map<string, Header>)
    | At(client: nat, event: Event)

  const NEW: Client := Client(map[], map[], 0, 0, map[])

  function Start(ts: seq<Trigger>): (n: Net)
    ensures Fits(ts, n)
  {
    Net(map[], {}, {}, seq(|ts|, i => NEW))
  }

  predicate Fits(ts: seq<Trigger>, n: Net) { |n.clients| == |ts| }

  function QueueOf(n: Net, name: string): seq<Copy> {
    if name in n.queues then n.queues[name] else []
  }

  /** The broker as trigger i sees it. */
  function View(ts: seq<Trigger>, n: Net, i: nat): Sys
    requires Fits(ts, n) && i < |ts|
  {
    var t, c := ts[i], n.clients[i];
    Sys(n.sent, QueueOf(n, t.queue), if t.dlq == t.queue then [] else QueueOf(n, t.dlq),
        c.unacked, c.received, c.nextTag, c.epoch, c.works, n.done)
  }

  function Update(ts: seq<Trigger>, n: Net, i: nat, s: Sys): (m: Net)
    requires Fits(ts, n) && i < |ts|
    ensures Fits(ts, m)
  {
    var t := ts[i];
    Net(n.queues[t.dlq := s.dlq][t.queue := s.queue], s.sent, s.done,
        n.clients[i := Client(s.unacked, s.received, s.nextTag, s.epoch, s.works)])
  }

  function NetStep(ts: seq<Trigger>, n: Net, e: NetEvent): (m: Net)
    requires Fits(ts, n)
    ensures Fits(ts, m)
  {
    match e
    case Send(name, mid, headers) =>
      if mid in n.sent then n
      else n.(sent := n.sent + {mid}, queues := n.queues[name := QueueOf(n, name) + [Copy(mid, headers)]])
    case At(i, event) =>
      if i >= |ts| || event.Produce? then n else Update(ts, n, i, Step(ts[i], View(ts, n, i), event))
  }

  function NetRun(ts: seq<Trigger>, n: Net, events: seq<NetEvent>): (m: Net)
    requires Fits(ts, n)
    ensures Fits(ts, m)
    decreases |events|
  {
    if events == [] then n else NetRun(ts, NetStep(ts, n, events[0]), events[1..])
  }

  predicate Acts(ts: seq<Trigger>, e: NetEvent) { e.At? && e.client < |ts| && !e.event.Produce? }

  // ----- what a step of one trigger means for the views -----

  lemma OwnView(ts: seq<Trigger>, n: Net, i: nat, e: Event)
    requires Fits(ts, n) && i < |ts| && !e.Produce?
    ensures View(ts, NetStep(ts, n, At(i, e)), i) == Step(ts[i], View(ts, n, i), e)
  {
    hide Step;
    if ts[i].dlq == ts[i].queue { DeadQueueApart(ts[i], View(ts, n, i), e); }
  }

  /** Without a dead-letter queue of its own a trigger puts nothing into one. */
  lemma DeadQueueApart(t: Trigger, s: Sys, e: Event)
    requires t.dlq == t.queue
    ensures Step(t, s, e).dlq == s.dlq
  {
    hide AfterHandler, NextCopy, Slots;
  }

  /** The two sequences differ by one more copy at the end, which a goroutine of the trigger dead-lettered. */
  lemma DeadAppended(t: Trigger, s: Sys, e: Event)
    requires Step(t, s, e).dlq != s.dlq
    ensures e.Published? && e.pid in s.works
    ensures var w := s.works[e.pid];
            && w.phase.Confirming? && w.phase.dead && t.dlq != t.queue
            && Step(t, s, e).dlq == s.dlq + [NextCopy(w.copy, w.phase.reason)]
  {
    hide AfterHandler, NextCopy, Slots;
  }

  /** Another trigger keeps all that is its own. */
  lemma OtherView(ts: seq<Trigger>, n: Net, i: nat, e: Event, j: nat)
    requires Fits(ts, n) && i < |ts| && j < |ts| && i != j && !e.Produce?
    ensures var s, u := View(ts, n, j), View(ts, NetStep(ts, n, At(i, e)), j);
            && u.unacked == s.unacked && u.received == s.received && u.works == s.works
            && u.nextTag == s.nextTag && u.epoch == s.epoch
  {
    hide Step;
  }

  lemma QueueAfter(ts: seq<Trigger>, n: Net, i: nat, e: Event, name: string)
    requires Fits(ts, n) && i < |ts| && !e.Produce?
    ensures var m, u := NetStep(ts, n, At(i, e)), Step(ts[i], View(ts, n, i), e);
            QueueOf(m, name) == if name == ts[i].queue then u.queue
                                else if name == ts[i].dlq then u.dlq else QueueOf(n, name)
  {
    hide Step;
  }

  // ----- no message is lost -----

  predicate Linked(s: Sys) { TagsOld(s) && OneEach(s) && Agree(s) }

  predicate AllLinked(ts: seq<Trigger>, n: Net)
    requires Fits(ts, n)
  {
    forall i | 0 <= i < |ts| :: Linked(View(ts, n, i)) && WithinSlots(ts[i], View(ts, n, i))
  }

  ghost predicate Kept(ts: seq<Trigger>, n: Net, mid: nat)
    requires Fits(ts, n)
  {
    || mid in n.done
    || (exists name :: name in n.queues && Has(n.queues[name], mid))
    || (exists i, tag :: 0 <= i < |ts| && Safe(View(ts, n, i), tag, mid))
  }

  lemma StepLinked(t: Trigger, s: Sys, e: Event)
    requires Linked(s)
    ensures Linked(Step(t, s, e))
  {
    StepTags(t, s, e);
    StepAgree(t, s, e);
  }

  lemma SameLinked(t: Trigger, s: Sys, u: Sys)
    requires Linked(s) && WithinSlots(t, s)
    requires u.unacked == s.unacked && u.received == s.received && u.works == s.works
    requires u.nextTag == s.nextTag && u.epoch == s.epoch
    ensures Linked(u) && WithinSlots(t, u)
  {
    assert Slots(u) == Slots(s);
  }

  lemma NetStepLinked(ts: seq<Trigger>, n: Net, e: NetEvent)
    requires Fits(ts, n) && AllLinked(ts, n)
    ensures AllLinked(ts, NetStep(ts, n, e))
  {
    hide Linked, WithinSlots, Step;
    var m := NetStep(ts, n, e);
    forall j | 0 <= j < |ts| ensures Linked(View(ts, m, j)) && WithinSlots(ts[j], View(ts, m, j)) {
      if Acts(ts, e) && e.client == j {
        OwnView(ts, n, j, e.event);
        StepLinked(ts[j], View(ts, n, j), e.event);
        LinkedSlots(ts[j], View(ts, n, j), e.event);
      } else {
        if Acts(ts, e) { OtherView(ts, n, e.client, e.event, j); }
        SameLinked(ts[j], View(ts, n, j), View(ts, m, j));
      }
    }
  }

  lemma LinkedSlots(t: Trigger, s: Sys, e: Event)
    requires WithinSlots(t, s)
    ensures WithinSlots(t, Step(t, s, e))
  {
    StepSlots(t, s, e);
  }

  lemma {:induction false} NetRunLinked(ts: seq<Trigger>, n: Net, events: seq<NetEvent>)
    requires Fits(ts, n) && AllLinked(ts, n)
    ensures AllLinked(ts, NetRun(ts, n, events))
    decreases |events|
  {
    if events != [] {
      NetStepLinked(ts, n, events[0]);
      NetRunLinked(ts, NetStep(ts, n, events[0]), events[1..]);
    }
  }

  /** What anchors the message in the view of one trigger keeps it. */
  lemma AnchorKeeps(ts: seq<Trigger>, n: Net, i: nat, mid: nat)
    requires Fits(ts, n) && i < |ts| && Anchored(View(ts, n, i), mid)
    ensures Kept(ts, n, mid)
  {
    var s := View(ts, n, i);
    if mid !in n.done && !Has(s.queue, mid) && !Has(s.dlq, mid) {
      var tag :| Safe(s, tag, mid);
    } else if mid !in n.done {
      var name := if Has(s.queue, mid) then ts[i].queue else ts[i].dlq;
      assert name in n.queues && Has(n.queues[name], mid);
    }
  }

  lemma ActKept(ts: seq<Trigger>, n: Net, i: nat, e: Event, mid: nat)
    requires Fits(ts, n) && i < |ts| && !e.Produce? && Linked(View(ts, n, i)) && Kept(ts, n, mid)
    ensures Kept(ts, NetStep(ts, n, At(i, e)), mid)
  {
    hide Step, Linked, Has, Safe;
    var m, s := NetStep(ts, n, At(i, e)), View(ts, n, i);
    OwnView(ts, n, i, e);
    if Anchored(s, mid) {
      StepAnchored(ts[i], s, e, mid);
      AnchorKeeps(ts, m, i, mid);
    } else if name :| name in n.queues && Has(n.queues[name], mid) {
      QueueAfter(ts, n, i, e, name);
      assert name != ts[i].queue;
      if name == ts[i].dlq { NothingHas(mid); }
      assert m.queues[name] == n.queues[name];
    } else {
      var j, tag :| 0 <= j < |ts| && Safe(View(ts, n, j), tag, mid);
      OtherView(ts, n, i, e, j);
      SameSafe(View(ts, n, j), View(ts, m, j), tag, mid);
    }
  }

  lemma NothingHas(mid: nat)
    ensures !Has([], mid)
  {
  }

  lemma StepAnchored(t: Trigger, s: Sys, e: Event, mid: nat)
    requires Linked(s) && Anchored(s, mid)
    ensures Anchored(Step(t, s, e), mid)
  {
    StepAnchors(t, s, e, mid);
  }

  lemma SameSafe(s: Sys, u: Sys, tag: nat, mid: nat)
    requires Safe(s, tag, mid) && u.unacked == s.unacked && u.works == s.works
    ensures Safe(u, tag, mid)
  {
  }

  lemma SendKept(ts: seq<Trigger>, n: Net, e: NetEvent, mid: nat)
    requires Fits(ts, n) && e.Send? && (Kept(ts, n, mid) || (mid == e.mid && mid !in n.sent))
    ensures Kept(ts, NetStep(ts, n, e), mid)
  {
    var m := NetStep(ts, n, e);
    HasMore(QueueOf(n, e.queue), Copy(e.mid, e.headers), mid);
    if m == n || mid in n.done {
    } else if mid == e.mid {
      assert Has(m.queues[e.queue], mid);
    } else if name :| name in n.queues && Has(n.queues[name], mid) {
      assert Has(m.queues[name], mid);
    } else {
      var j, tag :| 0 <= j < |ts| && Safe(View(ts, n, j), tag, mid);
      SameSafe(View(ts, n, j), View(ts, m, j), tag, mid);
    }
  }

  lemma {:induction false} RunKept(ts: seq<Trigger>, n: Net, events: seq<NetEvent>)
    requires Fits(ts, n) && AllLinked(ts, n) && forall mid :: mid in n.sent ==> Kept(ts, n, mid)
    ensures var m := NetRun(ts, n, events);
            AllLinked(ts, m) && forall mid :: mid in m.sent ==> Kept(ts, m, mid)
    decreases |events|
  {
    if events != [] {
      hide Kept, Step;
      var e, m := events[0], NetStep(ts, n, events[0]);
      NetStepLinked(ts, n, e);
      forall mid | mid in m.sent ensures Kept(ts, m, mid) {
        if e.Send? {
          SendKept(ts, n, e, mid);
        } else if Acts(ts, e) {
          SentStays(ts[e.client], View(ts, n, e.client), e.event);
          ActKept(ts, n, e.client, e.event, mid);
        }
      }
      RunKept(ts, m, events[1..]);
    }
  }

  lemma SentStays(t: Trigger, s: Sys, e: Event)
    requires !e.Produce?
    ensures Step(t, s, e).sent == s.sent
  {
    hide AfterHandler, NextCopy, Slots;
  }

  lemma StartLinked(ts: seq<Trigger>)
    ensures AllLinked(ts, Start(ts))
  {
    forall i | 0 <= i < |ts| ensures Linked(View(ts, Start(ts), i)) && WithinSlots(ts[i], View(ts, Start(ts), i)) {
      assert Slots(View(ts, Start(ts), i)) == {};
    }
  }

  function Most(limit: int): nat { if limit > 0 then limit else 0 }

  /** However the triggers of a broker share its queues: in every reachable state each message that was sent stands in
      some queue, is unacked at some trigger, or was run successfully with an accepted release; and no subscription runs
      more than its MaxConcurrency handlings at once. */
  lemma NoMessageIsLostAmongAll(ts: seq<Trigger>, events: seq<NetEvent>, mid: nat)
    ensures var n := NetRun(ts, Start(ts), events);
            mid in n.sent ==>
              || mid in n.done
              || (exists name :: name in n.queues && Has(n.queues[name], mid))
              || (exists i, tag :: 0 <= i < |ts| && tag in n.clients[i].unacked && n.clients[i].unacked[tag].mid == mid)
    ensures forall i | 0 <= i < |ts| ::
              |Slots(View(ts, NetRun(ts, Start(ts), events), i))| <= Most(ts[i].maxConcurrency)
  {
    StartLinked(ts);
    RunKept(ts, Start(ts), events);
    var n := NetRun(ts, Start(ts), events);
    if mid in n.sent && mid !in n.done && !exists name :: name in n.queues && Has(n.queues[name], mid) {
      var i, tag :| 0 <= i < |ts| && Safe(View(ts, n, i), tag, mid);
      assert tag in n.clients[i].unacked && n.clients[i].unacked[tag].mid == mid;
    }
  }
}
