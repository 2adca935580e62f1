/** gateway/queue/queue.go in its own form: one object per function, created on first use and then changed in
    place.  Each method is one channel operation or mutex section, proved against the step of `Admission`. */
module AdmissionObject {
  import Admission

  /** The semaphore channel is its number of tokens; its capacity is the manager's maxInflight. */
  class FunctionQueue {
    var sem: nat
    var queued: int

    constructor ()
      ensures Value() == Admission.FunctionQueue(0, 0)
    {
      sem, queued := 0, 0;
    }

    ghost function Value(): Admission.FunctionQueue
      reads this
    {
      Admission.FunctionQueue(sem, queued)
    }
  }

  class Manager {
    const maxInflight: nat
    const maxQueue: int
    var funcs: map<string, FunctionQueue>

    constructor (maxInflight: nat, maxQueue: int)
      ensures Valid() && View() == map[] && this.maxInflight == maxInflight && this.maxQueue == maxQueue
    {
      this.maxInflight, this.maxQueue, funcs := maxInflight, maxQueue, map[];
    }

    ghost predicate Valid()
      reads this
    {
      forall f, g :: f in funcs && g in funcs && funcs[f] == funcs[g] ==> f == g
    }

    ghost function View(): map<string, Admission.FunctionQueue>
      reads this, funcs.Values
    {
      map f | f in funcs :: funcs[f].Value()
    }

    /** get: the same object for every request of a function. */
    method Get(name: string) returns (fq: FunctionQueue)
      requires Valid()
      modifies this`funcs
      ensures Valid() && name in funcs && fq == funcs[name]
      ensures View() == Admission.Get(old(View()), name)
      ensures forall f :: f in old(funcs) ==> f in funcs && funcs[f] == old(funcs)[f]
    {
      if name in funcs {
        return funcs[name];
      }
      fq := new FunctionQueue();
      funcs := funcs[name := fq];
    }

    /** A send on the semaphore that gives up when the channel is full. */
    method TryToken(name: string) returns (ok: bool)
      requires Valid() && name in funcs
      modifies funcs[name]
      ensures Valid() && ok == (old(funcs[name].sem) < maxInflight)
      ensures View() == if ok then old(View())[name := Admission.Push(old(funcs[name].Value()))] else old(View())
    {
      var fq := funcs[name];
      ok := fq.sem < maxInflight;
      if ok {
        fq.sem := fq.sem + 1;
      }
    }

    /** The section that admits a request to the queue or rejects it. */
    method Enqueue(name: string) returns (ok: bool)
      requires Valid() && name in funcs
      modifies funcs[name]
      ensures Valid() && ok == (old(funcs[name].queued) < maxQueue)
      ensures View() == if ok then old(View())[name := Admission.AddQueued(old(funcs[name].Value()), 1)]
          else old(View())
    {
      var fq := funcs[name];
      if fq.queued >= maxQueue {
        return false;
      }
      fq.queued := fq.queued + 1;
      ok := true;
    }

    /** The section after the second select, whichever case it took. */
    method Dequeue(name: string)
      requires Valid() && name in funcs
      modifies funcs[name]
      ensures Valid() && View() == old(View())[name := Admission.AddQueued(old(funcs[name].Value()), -1)]
    {
      funcs[name].queued := funcs[name].queued - 1;
    }

    /** The deferred receive from the semaphore, which `Admission.TokenIsThere` shows never to block. */
    method ReturnToken(name: string)
      requires Valid() && name in funcs && funcs[name].sem > 0
      modifies funcs[name]
      ensures Valid() && View() == old(View())[name := Admission.Pop(old(funcs[name].Value()))]
    {
      funcs[name].sem := funcs[name].sem - 1;
    }

    /** The section of Status that reads the counter; like every `get` it creates a missing queue. */
    method ReadQueued(name: string) returns (queued: int)
      requires Valid()
      modifies this`funcs
      ensures Valid() && View() == Admission.Get(old(View()), name) && name in View()
      ensures queued == View()[name].queued
    {
      var fq := Get(name);
      queued := fq.queued;
    }

    /** The length of the semaphore channel, which Status reads after that section. */
    method ReadInFlight(name: string) returns (inFlight: nat)
      requires Valid() && name in funcs
      ensures name in View() && inFlight == View()[name].sem
    {
      inFlight := funcs[name].sem;
    }
  }
}
