/** The global queue, in-flight map and notify channel of runtime/cmd/runtime/main.go, changed in place by the handlers.
    Each method is one atomic section, proved against its step of `Rendezvous`, or a loop of sections that nothing
    interrupts. */
module RendezvousObject {
  import opened Options
  import opened Rendezvous

  /** The loop of handleNext up to its select, when nothing interrupts it. */
  function Drain(s: Sys, p: nat): Sys
    requires Doing(s, p, Looping)
    decreases |s.queue|
  {
    var u := PollerStep(s, Next(p));
    if u.pollers[p].Discarding? then Drain(PollerStep(u, Discard(p)), p) else u
  }

  function FirstLive(queue: seq<Invocation>, now: int): (k: nat)
    ensures k <= |queue| && (k < |queue| ==> now <= queue[k].deadline)
    ensures forall i :: 0 <= i < k ==> now > queue[i].deadline
  {
    if queue == [] || now <= queue[0].deadline then 0 else 1 + FirstLive(queue[1..], now)
  }

  function Ids(queue: seq<Invocation>): set<string> { set i | 0 <= i < |queue| :: queue[i].id }

  /** From `s` the poller has gone through `k` invocations past their deadline and then taken the next one, if any. */
  predicate WentThrough(s: Sys, u: Sys, p: nat, k: nat)
    requires k <= |s.queue|
  {
    && u.inflight == s.inflight - Ids(s.queue[..k])
    && (if k < |s.queue|
        then u.pollers == s.pollers[p := Took(s.queue[k].id)] && u.queue == s.queue[k + 1..]
             && u.dispatched == s.dispatched + [s.queue[k].id]
        else u.pollers == s.pollers[p := Sleeping] && u.queue == [] && u.dispatched == s.dispatched)
    && u.callers == s.callers && u.results == s.results && u.responders == s.responders
  }

  /** handleNext takes the first invocation that is not past its deadline; the ones before it leave the queue and the
      in-flight map, the ones behind it stay. */
  lemma {:induction false} DrainTakesFirstLive(s: Sys, p: nat)
    requires Doing(s, p, Looping)
    ensures WentThrough(s, Drain(s, p), p, FirstLive(s.queue, s.now))
    decreases |s.queue|
  {
    hide WentThrough;
    if s.queue != [] && s.now > s.queue[0].deadline {
      var u := PollerStep(PollerStep(s, Next(p)), Discard(p));
      Skipped(s, p);
      DrainTakesFirstLive(u, p);
      SkipsOne(s, u, Drain(s, p), p, FirstLive(u.queue, s.now));
    } else {
      SkipsNone(s, p);
    }
  }

  lemma SkipsNone(s: Sys, p: nat)
    requires Doing(s, p, Looping) && (s.queue == [] || s.now <= s.queue[0].deadline)
    ensures WentThrough(s, Drain(s, p), p, 0)
  {
  }

  lemma Skipped(s: Sys, p: nat)
    requires Doing(s, p, Looping) && s.queue != [] && s.now > s.queue[0].deadline
    ensures PollerStep(PollerStep(s, Next(p)), Discard(p))
         == s.(queue := s.queue[1..], inflight := s.inflight - {s.queue[0].id})
  {
    assert s.pollers[p := Discarding(s.queue[0].id)][p := Looping] == s.pollers;
  }

  lemma SkipsOne(s: Sys, u: Sys, v: Sys, p: nat, k: nat)
    requires s.queue != [] && u == s.(queue := s.queue[1..], inflight := s.inflight - {s.queue[0].id})
    requires k <= |u.queue| && WentThrough(u, v, p, k)
    ensures WentThrough(s, v, p, k + 1)
  {
    IdsCons(s.queue, k);
  }

  lemma IdsCons(queue: seq<Invocation>, k: nat)
    requires k < |queue|
    ensures Ids(queue[..k + 1]) == {queue[0].id} + Ids(queue[1..][..k])
  {
    var all, rest := queue[..k + 1], queue[1..][..k];
    forall id ensures id in Ids(all) <==> id in {queue[0].id} + Ids(rest) {
      if id in Ids(all) {
        var i :| 0 <= i < |all| && all[i].id == id;
        if i > 0 { assert rest[i - 1] == all[i]; }
      }
      if id in Ids(rest) {
        var i :| 0 <= i < |rest| && rest[i].id == id;
        assert all[i + 1] == rest[i];
      }
      assert all[0] == queue[0];
    }
  }

  class Runtime {
    const limit: nat
    var queue: seq<Invocation>
    var inflight: set<string>
    var results: map<string, Option<Response>>
    var notify: bool
    ghost var now: int
    ghost var callers: map<string, Caller>
    ghost var pollers: map<nat, Poller>
    ghost var responders: map<nat, Sending>
    ghost var nextNo: nat
    ghost var refused: set<string>
    ghost var dispatched: seq<string>
    ghost var accepted: map<string, Response>

    constructor (limit: nat)
      ensures this.limit == limit && View() == INIT
    {
      this.limit := limit;
      queue, inflight, results, notify := [], {}, map[], false;
      now, callers, pollers, responders, nextNo, refused, dispatched, accepted := 0, map[], map[], map[], 0, {}, [],
        map[];
    }

    ghost function View(): Sys
      reads this
    {
      Sys(now, queue, inflight, results, notify, callers, pollers, responders, nextNo, refused, dispatched, accepted)
    }

    /** The mutex section of handleInvocation. */
    method Enqueue(id: string, timeout: nat, clock: int) returns (ok: bool)
      requires id !in callers && id !in refused && clock <= now
      modifies this
      ensures ok <==> |old(queue)| < limit
      ensures View() == CallerStep(limit, old(View()), Call(id, clock, timeout))
    {
      if |queue| >= limit {
        refused := refused + {id};
        return false;
      }
      inflight := inflight + {id};
      results := results[id := None];
      queue := queue + [Invocation(id, clock + timeout)];
      callers, nextNo := callers[id := Caller(clock + timeout, timeout, nextNo, Notifying)], nextNo + 1;
      ok := true;
    }

    /** The send to notify, which is dropped when the slot is taken. */
    method Announce(ghost id: string)
      requires Is(View(), id, Notifying)
      modifies this`notify, this`callers
      ensures View() == CallerStep(limit, old(View()), Rendezvous.Notify(id))
    {
      if !notify {
        notify := true;
      }
      callers := callers[id := callers[id].(phase := Announced)];
    }

    method RemoveQueuedInvocation(id: string)
      requires Is(View(), id, Unqueueing)
      modifies this`queue, this`callers
      ensures View() == CallerStep(limit, old(View()), Unqueue(id))
    {
      callers := callers[id := callers[id].(phase := TimedOut)];
      ghost var n := RemoveIndices(queue, id);
      for i := 0 to |queue|
        modifies this`queue
        invariant i <= n && queue == old(queue)
      {
        if queue[i].id == id {
          queue := queue[..i] + queue[i + 1..];
          return;
        }
      }
    }

    /** handleNext up to its select: the id to write, or None when the poller goes to sleep. */
    method TakeNext(ghost p: nat, clock: int) returns (taken: Option<string>)
      requires Doing(View(), p, Looping) && clock == now
      modifies this`queue, this`inflight, this`pollers, this`dispatched
      ensures View() == Drain(old(View()), p)
      ensures p in pollers && taken == if pollers[p].Took? then Some(pollers[p].id) else None
    {
      while |queue| > 0
        invariant Doing(View(), p, Looping) && Drain(View(), p) == Drain(old(View()), p)
        modifies this`queue, this`inflight, this`pollers, this`dispatched
        decreases |queue|
      {
        ghost var s := View();
        var inv := queue[0];
        queue := queue[1..];
        if clock > inv.deadline {
          pollers := pollers[p := Discarding(inv.id)];
          assert View() == PollerStep(s, Next(p));
          inflight := inflight - {inv.id};
          pollers := pollers[p := Looping];
          assert View() == PollerStep(PollerStep(s, Next(p)), Discard(p));
        } else {
          pollers, dispatched := pollers[p := Took(inv.id)], dispatched + [inv.id];
          assert View() == PollerStep(s, Next(p));
          return Some(inv.id);
        }
      }
      pollers := pollers[p := Sleeping];
      taken := None;
    }

    /** inflight.LoadAndDelete of handleResponse: false for an id that is not in flight. */
    method LoadAndDelete(ghost r: nat, id: string, response: Response) returns (ok: bool)
      requires r !in responders
      modifies this`inflight, this`responders, this`accepted
      ensures ok <==> id in old(inflight)
      ensures View() == ResponderStep(old(View()), Respond(r, id, response))
    {
      if id !in inflight {
        return false;
      }
      inflight := inflight - {id};
      responders, accepted := responders[r := Sending(id, response)], accepted[id := response];
      ok := true;
    }
  }
}
