/** Conservation of copies among all triggers of a broker, through shared and crossing queues. */
module DeliveryNetCopies {
  import opened Attempts
  import opened Delivery
  import opened DeliveryNet
  import opened DeliveryCopies

  ghost function InQueues(queues: map<string, seq<Copy>>, mid: nat): nat
    decreases |queues|
  {
    if queues == map[] then 0
    else
      var name :| name in queues;
      CountIn(queues[name], mid) + InQueues(queues - {name}, mid)
  }

  lemma {:induction false} InQueuesWithout(queues: map<string, seq<Copy>>, name: string, mid: nat)
    requires name in queues
    ensures InQueues(queues, mid) == CountIn(queues[name], mid) + InQueues(queues - {name}, mid)
    decreases |queues|
  {
    hide CountIn;
    var first :| first in queues
      && InQueues(queues, mid) == CountIn(queues[first], mid) + InQueues(queues - {first}, mid);
    if first != name {
      assert queues - {first} - {name} == queues - {name} - {first};
      InQueuesWithout(queues - {first}, name, mid);
      InQueuesWithout(queues - {name}, first, mid);
    }
  }

  lemma InQueuesSet(queues: map<string, seq<Copy>>, name: string, copies: seq<Copy>, mid: nat)
    ensures InQueues(queues[name := copies], mid) + (if name in queues then CountIn(queues[name], mid) else 0)
         == InQueues(queues, mid) + CountIn(copies, mid)
  {
    var changed := queues[name := copies];
    InQueuesWithout(changed, name, mid);
    if name in queues {
      InQueuesWithout(queues, name, mid);
      assert changed - {name} == queues - {name};
    } else {
      assert changed - {name} == queues;
    }
  }

  /** The unacked deliveries of the first `upto` triggers that are not about to be acked. */
  function AtClients(ts: seq<Trigger>, n: Net, mid: nat, upto: nat): nat
    requires Fits(ts, n) && upto <= |ts|
  {
    if upto == 0 then 0 else AtClients(ts, n, mid, upto - 1) + |LiveTags(View(ts, n, upto - 1), mid)|
  }

  ghost function NetCopies(ts: seq<Trigger>, n: Net, mid: nat): nat
    requires Fits(ts, n)
  {
    InQueues(n.queues, mid) + AtClients(ts, n, mid, |ts|)
  }

  lemma SameLiveTags(s: Sys, u: Sys, mid: nat)
    requires u.unacked == s.unacked && u.works == s.works
    ensures LiveTags(u, mid) == LiveTags(s, mid)
  {
    assert forall tag :: Doomed(u, tag) <==> Doomed(s, tag);
  }

  /** Only trigger i's own deliveries change. */
  lemma {:induction false} ClientsBut(ts: seq<Trigger>, n: Net, m: Net, mid: nat, i: nat, upto: nat)
    requires Fits(ts, n) && Fits(ts, m) && upto <= |ts|
    requires forall j | 0 <= j < |ts| && j != i ::
               View(ts, m, j).unacked == View(ts, n, j).unacked && View(ts, m, j).works == View(ts, n, j).works
    ensures AtClients(ts, m, mid, upto) + (if i < upto then |LiveTags(View(ts, n, i), mid)| else 0)
         == AtClients(ts, n, mid, upto) + (if i < upto then |LiveTags(View(ts, m, i), mid)| else 0)
  {
    if upto > 0 {
      hide LiveTags;
      if upto - 1 != i { SameLiveTags(View(ts, n, upto - 1), View(ts, m, upto - 1), mid); }
      ClientsBut(ts, n, m, mid, i, upto - 1);
    }
  }

  lemma QueueCounts(n: Net, name: string, mid: nat)
    ensures CountIn(QueueOf(n, name), mid) == if name in n.queues then CountIn(n.queues[name], mid) else 0
  {
  }

  lemma ActQueues(ts: seq<Trigger>, n: Net, i: nat, u: Sys, mid: nat)
    requires Fits(ts, n) && i < |ts| && (ts[i].dlq == ts[i].queue ==> u.dlq == [])
    ensures var s := View(ts, n, i);
            InQueues(Update(ts, n, i, u).queues, mid) + CountIn(s.queue, mid) + CountIn(s.dlq, mid)
            == InQueues(n.queues, mid) + CountIn(u.queue, mid) + CountIn(u.dlq, mid)
  {
    hide CountIn, InQueues;
    var t := ts[i];
    Nothing(mid);
    QueueCounts(n, t.queue, mid);
    QueueCounts(n, t.dlq, mid);
    if t.dlq == t.queue {
      assert n.queues[t.dlq := u.dlq][t.queue := u.queue] == n.queues[t.queue := u.queue];
      InQueuesSet(n.queues, t.queue, u.queue, mid);
    } else {
      InQueuesSet(n.queues, t.dlq, u.dlq, mid);
      InQueuesSet(n.queues[t.dlq := u.dlq], t.queue, u.queue, mid);
    }
  }

  lemma Nothing(mid: nat)
    ensures CountIn([], mid) == 0
  {
  }

  lemma ActCopies(ts: seq<Trigger>, n: Net, i: nat, e: Event, mid: nat)
    requires Fits(ts, n) && i < |ts| && !e.Produce? && Linked(View(ts, n, i))
    ensures NetCopies(ts, NetStep(ts, n, At(i, e)), mid)
         == NetCopies(ts, n, mid) + Change(ts[i], View(ts, n, i), e, mid)
  {
    hide Step, CountIn, InQueues, LiveTags, Adds, Settles, Update, AtClients;
    var m, s := NetStep(ts, n, At(i, e)), View(ts, n, i);
    var u := Step(ts[i], s, e);
    OwnView(ts, n, i, e);
    CopiesExactly(ts[i], s, e, mid);
    if ts[i].dlq == ts[i].queue { DeadQueueApart(ts[i], s, e); }
    ActQueues(ts, n, i, u, mid);
    forall j | 0 <= j < |ts| && j != i
      ensures View(ts, m, j).unacked == View(ts, n, j).unacked && View(ts, m, j).works == View(ts, n, j).works
    {
      OtherView(ts, n, i, e, j);
    }
    ClientsBut(ts, n, m, mid, i, |ts|);
  }

  predicate NetAdds(ts: seq<Trigger>, n: Net, e: NetEvent, mid: nat)
    requires Fits(ts, n)
  {
    if e.Send? then e.mid == mid && mid !in n.sent
    else Acts(ts, e) && Adds(View(ts, n, e.client), e.event, mid)
  }

  predicate NetSettles(ts: seq<Trigger>, n: Net, e: NetEvent, mid: nat)
    requires Fits(ts, n)
  {
    Acts(ts, e) && Settles(ts[e.client], View(ts, n, e.client), e.event, mid)
  }

  lemma SendCopies(ts: seq<Trigger>, n: Net, e: NetEvent, mid: nat)
    requires Fits(ts, n) && e.Send?
    ensures NetCopies(ts, NetStep(ts, n, e), mid)
         == NetCopies(ts, n, mid) + if NetAdds(ts, n, e, mid) then 1 else 0
  {
    var m := NetStep(ts, n, e);
    if m != n {
      InQueuesSet(n.queues, e.queue, m.queues[e.queue], mid);
      CountSnoc(QueueOf(n, e.queue), Copy(e.mid, e.headers), mid);
      QueueCounts(n, e.queue, mid);
      hide InQueues, CountIn, LiveTags;
      ClientsBut(ts, n, m, mid, |ts|, |ts|);
    }
  }

  /** Every step of every trigger changes the number of copies of a message among all by exactly this. */
  lemma NetCopiesExactly(ts: seq<Trigger>, n: Net, e: NetEvent, mid: nat)
    requires Fits(ts, n) && AllLinked(ts, n)
    ensures NetCopies(ts, NetStep(ts, n, e), mid) == NetCopies(ts, n, mid)
              + (if NetAdds(ts, n, e, mid) then 1 else 0) - (if NetSettles(ts, n, e, mid) then 1 else 0)
  {
    hide NetCopies, Step, Adds, Settles, Linked;
    if e.Send? {
      SendCopies(ts, n, e, mid);
    } else if Acts(ts, e) {
      ActCopies(ts, n, e.client, e.event, mid);
      NotBoth(ts[e.client], View(ts, n, e.client), e.event, mid);
    }
  }

  /** The steps of a run that add a copy of the message. */
  function NetAdditions(ts: seq<Trigger>, n: Net, events: seq<NetEvent>, mid: nat): nat
    requires Fits(ts, n)
    decreases |events|
  {
    if events == [] then 0
    else
      var rest := NetAdditions(ts, NetStep(ts, n, events[0]), events[1..], mid);
      rest + if NetAdds(ts, n, events[0], mid) then 1 else 0
  }

  /** The successful runs that take one away. */
  function NetSuccesses(ts: seq<Trigger>, n: Net, events: seq<NetEvent>, mid: nat): nat
    requires Fits(ts, n)
    decreases |events|
  {
    if events == [] then 0
    else
      var rest := NetSuccesses(ts, NetStep(ts, n, events[0]), events[1..], mid);
      rest + if NetSettles(ts, n, events[0], mid) then 1 else 0
  }

  lemma {:induction false} RunNetCopies(ts: seq<Trigger>, n: Net, events: seq<NetEvent>, mid: nat)
    requires Fits(ts, n) && AllLinked(ts, n)
    ensures NetCopies(ts, NetRun(ts, n, events), mid) + NetSuccesses(ts, n, events, mid)
         == NetCopies(ts, n, mid) + NetAdditions(ts, n, events, mid)
    decreases |events|
  {
    if events != [] {
      hide NetStep, NetCopies, NetAdds, NetSettles, AllLinked;
      NetCopiesExactly(ts, n, events[0], mid);
      NetStepLinked(ts, n, events[0]);
      RunNetCopies(ts, NetStep(ts, n, events[0]), events[1..], mid);
    }
  }

  /** Conservation among all triggers, over any run: copies present plus successful runs equal the additions. */
  lemma CopiesConserved(ts: seq<Trigger>, events: seq<NetEvent>, mid: nat)
    ensures NetCopies(ts, NetRun(ts, Start(ts), events), mid) + NetSuccesses(ts, Start(ts), events, mid)
         == NetAdditions(ts, Start(ts), events, mid)
  {
    StartLinked(ts);
    RunNetCopies(ts, Start(ts), events, mid);
    NoneYet(ts, mid, |ts|);
  }

  lemma {:induction false} NoneYet(ts: seq<Trigger>, mid: nat, upto: nat)
    requires upto <= |ts|
    ensures AtClients(ts, Start(ts), mid, upto) == 0
  {
    if upto > 0 {
      NoneYet(ts, mid, upto - 1);
      assert LiveTags(View(ts, Start(ts), upto - 1), mid) == {};
    }
  }
}
