/** What one step of the runtime API does, in the fields of the state alone. */
module RendezvousEffects {
  import opened Options
  import opened Rendezvous

  /** A call is admitted exactly while the queue is below its limit, at its end, with a deadline its timeout after it
      was
      made. */
  lemma CallEffect(limit: nat, s: Sys, id: string, made: int, timeout: nat)
    requires id !in s.callers && id !in s.refused && made <= s.now
    ensures Step(limit, s, Call(id, made, timeout))
         == if |s.queue| >= limit then s.(refused := s.refused + {id})
            else s.(queue := s.queue + [Invocation(id, made + timeout)], inflight := s.inflight + {id},
                    results := s.results[id := None], nextNo := s.nextNo + 1,
                    callers := s.callers[id := Caller(made + timeout, timeout, s.nextNo, Notifying)])
  {
  }

  predicate InPhase(s: Sys, id: string, phase: Phase) { id in s.callers && s.callers[id].phase == phase }

  function Moved(s: Sys, id: string, phase: Phase): Sys
    requires id in s.callers
  {
    s.(callers := s.callers[id := s.callers[id].(phase := phase)])
  }

  /** The send to notify leaves a token, whether or not there was one; the timer starts at the select. */
  lemma AnnounceEffect(limit: nat, s: Sys, id: string)
    ensures InPhase(s, id, Notifying) ==> Step(limit, s, Notify(id)) == Moved(s, id, Announced).(token := true)
    ensures InPhase(s, id, Announced) ==>
              Step(limit, s, Select(id)) == Moved(s, id, Waiting(s.now + s.callers[id].timeout))
  {
  }

  /** A waiting caller takes a response when one is there, and gives up exactly when its timer has run out. */
  lemma WaitingEffect(limit: nat, s: Sys, id: string, timer: int)
    requires InPhase(s, id, Waiting(timer)) && id in s.results
    ensures Step(limit, s, Receive(id))
         == if s.results[id].Some? then Moved(s, id, Answered(s.results[id].value)).(results := s.results[id := None])
            else s
    ensures Step(limit, s, Timeout(id)) == if s.now >= timer then Moved(s, id, Forgetting) else s
  {
  }

  /** After its timeout it leaves the in-flight map, and then the queue: the first entry with its id is cut out. */
  lemma TimeoutEffect(limit: nat, s: Sys, id: string) returns (k: nat)
    ensures InPhase(s, id, Forgetting) ==>
              Step(limit, s, Forget(id)) == Moved(s, id, Unqueueing).(inflight := s.inflight - {id})
    ensures InPhase(s, id, Unqueueing) ==>
              && k <= |s.queue| && (forall j | 0 <= j < k :: s.queue[j].id != id)
              && (k < |s.queue| ==> s.queue[k].id == id)
              && Step(limit, s, Unqueue(id))
                 == Moved(s, id, TimedOut).(queue := if k < |s.queue| then s.queue[..k] + s.queue[k + 1..] else s.queue)
  {
    k := FirstWith(s.queue, id);
  }

  lemma {:induction false} FirstWith(queue: seq<Invocation>, id: string) returns (k: nat)
    ensures k <= |queue| && (forall j | 0 <= j < k :: queue[j].id != id) && (k < |queue| ==> queue[k].id == id)
    ensures Remove(queue, id) == if k < |queue| then queue[..k] + queue[k + 1..] else queue
  {
    if queue == [] || queue[0].id == id {
      k := 0;
    } else {
      k := FirstWith(queue[1..], id);
      k := k + 1;
      assert queue == [queue[0]] + queue[1..];
      if k < |queue| {
        assert queue[..k] + queue[k + 1..] == [queue[0]] + (queue[1..][..k - 1] + queue[1..][k..]);
      }
    }
  }

  /** A poller takes the head of the queue: it is dispatched, or discarded if its deadline has passed; with an empty
      queue
      the poller goes to sleep. */
  lemma NextEffect(limit: nat, s: Sys, p: nat)
    requires p in s.pollers && s.pollers[p] == Looping
    ensures Step(limit, s, Next(p))
         == if s.queue == [] then s.(pollers := s.pollers[p := Sleeping])
            else if s.now > s.queue[0].deadline then
              s.(queue := s.queue[1..], pollers := s.pollers[p := Discarding(s.queue[0].id)])
            else s.(queue := s.queue[1..], pollers := s.pollers[p := Took(s.queue[0].id)],
                    dispatched := s.dispatched + [s.queue[0].id])
  {
  }

  /** A discarded invocation leaves the in-flight map; a sleeper wakes exactly when there is a token, and takes it. */
  lemma PollerEffect(limit: nat, s: Sys, p: nat)
    requires p in s.pollers
    ensures s.pollers[p].Discarding? ==>
              Step(limit, s, Discard(p))
              == s.(inflight := s.inflight - {s.pollers[p].id}, pollers := s.pollers[p := Looping])
    ensures s.pollers[p] == Sleeping ==>
              Step(limit, s, Wake(p))
              == if s.token then s.(token := false, pollers := s.pollers[p := Looping]) else s
    ensures s.pollers[p] == Sleeping ==> Step(limit, s, GiveUp(p)) == s.(pollers := s.pollers[p := Gone])
  {
  }

  /** A response is accepted exactly for an id in flight, which it takes out of the map, and is then put into that id's
      empty channel. */
  lemma RespondEffect(limit: nat, s: Sys, r: nat, id: string, response: Response)
    requires r !in s.responders
    ensures var t := Step(limit, s, Respond(r, id, response));
            if id !in s.inflight then t == s
            else
              && t == s.(inflight := s.inflight - {id}, accepted := s.accepted[id := response],
                         responders := s.responders[r := Sending(id, response)])
              && (id in s.results && s.results[id] == None ==>
                    Step(limit, t, Send(r)) == t.(results := s.results[id := Some(response)],
                      responders := s.responders))
  {
    assert s.responders[r := Sending(id, response)] - {r} == s.responders;
  }
}
