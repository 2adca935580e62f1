/** gateway/scheduler/scheduler.go in its own form: container objects shared by pool slices, lease records
    and callers, changed in place under the mutex.  Every method is one critical section; it is proved to
    change the abstract state `view` as the function of the same section in `InstancePool` says. */
module SchedulerObject {
  import opened InstancePool

  class Container {
    const id: string
    const func: string
    const port: nat
    ghost const code: nat
    var state: InstState
    var lastUsed: int

    constructor (id: string, func: string, port: nat, ghost code: nat, state: InstState, now: int)
      ensures this.id == id && Value() == Inst(state, now, func, port, code)
    {
      this.id, this.func, this.port, this.code, this.state, lastUsed := id, func, port, code, state, now;
    }

    ghost function Value(): Inst
      reads this
    {
      Inst(state, lastUsed, func, port, code)
    }
  }

  /** A lease record; `released` is set in the same section that drops the record from the map. */
  datatype LeaseRecord = LeaseRecord(instance: Container, deadline: int, released: bool)

  function IdsOf(cs: seq<Container>): (ids: seq<string>)
    ensures |ids| == |cs| && forall i :: 0 <= i < |cs| ==> ids[i] == cs[i].id
  {
    seq(|cs|, i requires 0 <= i < |cs| => cs[i].id)
  }

  lemma PushIds(cs: seq<Container>, c: Container)
    ensures IdsOf(cs + [c]) == IdsOf(cs) + [c.id]
  {
  }

  lemma CutIds(cs: seq<Container>, i: nat)
    requires i < |cs|
    ensures IdsOf(cs[..i] + cs[i + 1..]) == IdsOf(cs)[..i] + IdsOf(cs)[i + 1..]
    ensures forall c :: c in cs[..i] + cs[i + 1..] ==> c in cs
  {
  }

  lemma KeepNone(gone: set<string>)
    ensures Keep([], gone) == []
  {
  }

  lemma NoneIdle(insts: map<string, Inst>, ids: seq<string>)
    requires forall k :: 0 <= k < |ids| ==> !IsIdle(insts, ids[k])
    ensures FirstIdle(insts, ids) == |ids|
  {
  }

  /** Ports and new instances do not matter to the pools. */
  lemma StillWellFormed(sh: Shared, port: nat, id: string, inst: Inst)
    requires WellFormed(sh)
    ensures WellFormed(sh.(nextPort := port))
    ensures id !in sh.insts ==> WellFormed(sh.(insts := sh.insts[id := inst]))
  {
  }

  lemma FirstIdleIs(insts: map<string, Inst>, ids: seq<string>, i: nat)
    requires i < |ids| && IsIdle(insts, ids[i]) && forall k :: 0 <= k < i ==> !IsIdle(insts, ids[k])
    ensures FirstIdle(insts, ids) == i
  {
  }

  lemma OldestTurn(insts: map<string, Inst>, ids: seq<string>, i: nat)
    requires i < |ids|
    ensures var r := OldestIdle(insts, ids[..i]);
            OldestIdle(insts, ids[..i + 1])
            == if IsIdle(insts, ids[i]) && (r == -1 || insts[ids[i]].lastUsed < insts[ids[r]].lastUsed) then i else r
  {
    assert ids[..i + 1][..i] == ids[..i];
  }

  class Scheduler {
    var functions: map<string, Config>
    var pool: map<string, seq<Container>>
    var leases: map<string, LeaseRecord>
    var nextPort: nat
    ghost var heap: map<string, Container>  // every container that was ever started, by id
    ghost var view: Shared

    ghost predicate Known(c: Container)
      reads `heap
    {
      c.id in heap && heap[c.id] == c
    }

    ghost predicate HeapAgrees(insts: map<string, Inst>)
      reads `heap, heap.Values
    {
      heap.Keys == insts.Keys && forall id :: id in heap ==> heap[id].id == id && insts[id] == heap[id].Value()
    }

    ghost predicate PoolAgrees(pools: map<string, seq<string>>)
      reads `heap, `pool
    {
      pool.Keys == pools.Keys && forall f :: f in pool ==> pools[f] == IdsOf(pool[f]) && AllKnown(pool[f])
    }

    ghost predicate AllKnown(cs: seq<Container>)
      reads `heap
    {
      forall i :: 0 <= i < |cs| ==> Known(cs[i])
    }

    ghost predicate LeasesAgree(recorded: map<string, Lease>)
      reads `heap, `leases
    {
      leases.Keys == recorded.Keys && forall l :: l in leases ==> RecordAgrees(leases[l], recorded[l])
    }

    ghost predicate RecordAgrees(record: LeaseRecord, lease: Lease)
      reads `heap
    {
      Known(record.instance) && !record.released && lease == Lease(record.instance.id, record.deadline)
    }

    ghost predicate Valid()
      reads this, heap.Values
    {
      && functions == view.functions && nextPort == view.nextPort
      && HeapAgrees(view.insts) && PoolAgrees(view.pool) && LeasesAgree(view.leases) && WellFormed(view)
    }

    constructor (functions: map<string, Config>, port: nat)
      ensures Valid() && view == Shared(functions, map[], map[], map[], port)
    {
      this.functions, pool, leases, nextPort, heap := functions, map[], map[], port, map[];
      view := Shared(functions, map[], map[], map[], port);
    }

    /** The slice of a function, nil when there is none. */
    function Slice(name: string): (cs: seq<Container>)
      requires Valid()
      reads this, heap.Values
      ensures IdsOf(cs) == PoolOf(view, name)
      ensures AllKnown(cs)
    {
      if name in pool then pool[name] else []
    }

    /** A container changes state in place; every slice and lease that points to it sees the change. */
    method Mark(c: Container, state: InstState, now: int)
      requires Valid() && Known(c)
      modifies c, this`view
      ensures Valid() && view == SetState(old(view), c.id, state, now)
    {
      hide WellFormed, Grows, Pooled, PoolAgrees, LeasesAgree;
      c.state, c.lastUsed := state, now;
      view := SetState(view, c.id, state, now);
    }

    /** The part of Acquire up to its unlock. */
    method TakeIdle(name: string, now: int) returns (taken: Taken, c: Container?)
      requires Valid()
      modifies this`nextPort, this`view, heap.Values
      ensures Valid() && (view, taken) == Take(old(view), name, now)
      ensures taken.Reused? ==> c != null && c.id == taken.id && Known(c)
    {
      hide FirstIdle, SetState, WellFormed, Grows, Pooled;
      c := null;
      if name !in functions {
        return NotFound, null;
      }
      var cs := Slice(name);
      ghost var sh := view;
      for i := 0 to |cs|
        invariant forall k :: 0 <= k < i ==> !IsIdle(sh.insts, IdsOf(cs)[k])
        invariant view == sh && Valid()
      {
        if cs[i].state == Idle {
          c := cs[i];
          FirstIdleIs(sh.insts, IdsOf(cs), i);
          Mark(c, Busy, now);
          return Reused(c.id), c;
        }
      }
      NoneIdle(sh.insts, IdsOf(cs));
      StillWellFormed(view, nextPort + 1, "", Inst(Idle, 0, "", 0, 0));
      taken := MustStart(nextPort, functions[name].code);
      nextPort := nextPort + 1;
      view := view.(nextPort := nextPort);
    }

    /** The scheduler's heap gains a container that no slice lists yet. */
    ghost method Adopt(c: Container)
      requires Valid() && c.id !in heap
      modifies this`heap, this`view
      ensures Valid() && heap == old(heap)[c.id := c]
      ensures view == old(view).(insts := old(view).insts[c.id := c.Value()])
    {
      hide WellFormed, Grows, Pooled, IdsOf, PoolOf;
      StillWellFormed(view, 0, c.id, c.Value());
      heap, view := heap[c.id := c], view.(insts := view.insts[c.id := c.Value()]);
    }

    /** The section after a start has returned: the new container is appended to its function's slice. */
    method AddInstance(name: string, id: string, port: nat, ghost code: nat, state: InstState, now: int)
        returns (c: Container)
      requires Valid() && id !in heap
      modifies this`pool, this`heap, this`view
      ensures Valid() && Known(c) && c.id == id && fresh(c) && c.func == name
      ensures view == AddStarted(old(view), id, Inst(state, now, name, port, code))
    {
      c := new Container(id, name, port, code, state, now);
      var cs := Slice(name);
      PushIds(cs, c);
      ghost var next := AddStarted(view, id, c.Value());
      Adopt(c);
      SetSlice(name, cs + [c], next);
    }

    /** Release. */
    method Release(c: Container, now: int)
      requires Valid() && Known(c)
      modifies c, this`view
      ensures Valid() && view == SetState(old(view), c.id, Idle, now)
    {
      Mark(c, Idle, now);
    }

    /** The last section of AcquireInstance. */
    method Record(lease: string, c: Container, timeout: int, now: int)
      requires Valid() && Known(c) && lease !in leases
      modifies this`leases, this`view
      ensures Valid() && view == RecordLease(old(view), lease, c.id, timeout, now)
    {
      leases := leases[lease := LeaseRecord(c, now + timeout * SECOND + 5 * SECOND, false)];
      view := RecordLease(view, lease, c.id, timeout, now);
    }

    /** One entry of the pool map is assigned. */
    method SetSlice(name: string, cs: seq<Container>, ghost next: Shared)
      requires Valid() && WellFormed(next) && next == view.(pool := view.pool[name := IdsOf(cs)])
      requires AllKnown(cs)
      modifies this`pool, this`view
      ensures Valid() && view == next && pool == old(pool)[name := cs]
    {
      pool := pool[name := cs];
      view := next;
    }

    /** The slice assigned back without its entry `i`. */
    method Cut(name: string, cs: seq<Container>, i: nat)
      requires Valid() && i < |cs| && AllKnown(cs) && IdsOf(cs) == PoolOf(view, name)
      modifies this`pool, this`view
      ensures Valid() && view == Splice(old(view), name, i)
    {
      CutIds(cs, i);
      SetSlice(name, cs[..i] + cs[i + 1..], Splice(view, name, i));
    }

    /** removeInstanceLocked: the entry is spliced out of its function's slice. */
    method Remove(target: Container)
      requires Valid() && Known(target)
      modifies this`pool, this`view
      ensures Valid() && view == Detach(old(view), {target.id})
    {
      var cs := Slice(target.func);
      for i := 0 to |cs|
        invariant forall k :: 0 <= k < i ==> IdsOf(cs)[k] != target.id
        invariant view == old(view) && Valid() && pool == old(pool)
      {
        if cs[i] == target || cs[i].id == target.id {
          Cut(target.func, cs, i);
          return;
        }
      }
      DetachNothing(view, {target.id});
    }

    /** releaseInstanceLocked: false when there is no such lease, and then nothing changes. */
    method ReleaseLocked(lease: string, status: LeaseStatus, now: int) returns (ok: bool, stopId: string)
      requires Valid()
      modifies this`pool, this`leases, this`view, heap.Values
      ensures Valid() && ok == (lease in old(leases))
      ensures !ok ==> view == old(view) && leases == old(leases)
      ensures ok ==> leases == old(leases) - {lease} && view == EndLease(old(view), lease, status, now).0
      ensures ok && Retires(status) ==> stopId == old(view).leases[lease].inst
    {
      hide Detach, SetState, WellFormed, Grows, Pooled;
      stopId := "";
      if lease !in leases || leases[lease].released {
        return false, stopId;
      }
      var record := leases[lease];
      leases := leases - {lease};
      view := DropLeases(view, {lease});
      if status == Timeout || status == Abandoned {
        Remove(record.instance);
        return true, record.instance.id;
      }
      Mark(record.instance, Idle, now);
      ok := true;
    }

    /** ReleaseInstance: an unknown status or lease is refused. */
    method ReleaseInstance(lease: string, status: LeaseStatus, now: int) returns (ok: bool, stops: set<string>)
      requires Valid()
      modifies this`pool, this`leases, this`view, heap.Values
      ensures Valid() && ok == (!status.Unknown? && lease in old(leases))
      ensures !ok ==> view == old(view) && stops == {}
      ensures ok ==> (view, stops) == EndLease(old(view), lease, status, now)
    {
      if status.Unknown? {
        return false, {};
      }
      var stopId;
      ok, stopId := ReleaseLocked(lease, status, now);
      stops := if ok && Retires(status) then {stopId} else {};
    }

    /** One turn of the loop of reapExpiredLeases. */
    method ReapOne(lease: string, now: int) returns (stops: set<string>)
      requires Valid() && lease in leases
      modifies this`pool, this`leases, this`view, heap.Values
      ensures Valid() && (view, stops) == ReapTurn(old(view), lease, now)
    {
      stops := {};
      if now > leases[lease].deadline {
        var ok, stopId := ReleaseLocked(lease, Timeout, now);
        stops := {stopId};
      }
    }

    /** reapExpiredLeases: the leases are visited in any order. */
    method ReapExpired(now: int) returns (stops: set<string>)
      requires Valid()
      modifies this`pool, this`leases, this`view, heap.Values
      ensures Valid() && (view, stops) == ReapLeases(old(view), now)
    {
      hide WellFormed, Grows, Pooled;
      ghost var sh := view;
      ghost var due := Expired(sh, now);
      ghost var seen: set<string> := {};
      var todo := leases.Keys;
      stops := {};
      ReapNone(view);
      assert seen * due == {};
      while todo != {}
        invariant Valid() && heap == old(heap) && Visiting(sh.leases.Keys, seen, todo)
        invariant view == ReapSome(sh, seen * due) && stops == LeasedBy(sh, seen * due)
        decreases todo
      {
        var lease :| lease in todo;
        VisitOne(sh.leases.Keys, seen, todo, lease);
        ReapTurnStep(sh, seen, lease, now);
        todo := todo - {lease};
        var stopped := ReapOne(lease, now);
        stops := stops + stopped;
        seen := seen + {lease};
      }
      assert seen * due == due;
    }

    /** Stats: containers that are starting are in neither count. */
    method Stats(name: string) returns (busy: nat, idle: nat)
      requires Valid()
      ensures busy == Count(view.insts, PoolOf(view, name), Busy)
      ensures idle == Count(view.insts, PoolOf(view, name), Idle)
    {
      var cs := Slice(name);
      ghost var ids := PoolOf(view, name);
      busy, idle := 0, 0;
      for i := 0 to |cs|
        invariant busy + Count(view.insts, ids[i..], Busy) == Count(view.insts, ids, Busy)
        invariant idle + Count(view.insts, ids[i..], Idle) == Count(view.insts, ids, Idle)
      {
        assert ids[i..][1..] == ids[i + 1..];
        match cs[i].state {
          case Busy => busy := busy + 1;
          case Idle => idle := idle + 1;
          case Starting =>
        }
      }
    }

    /** The inner loop of the reaper: the slice without its stale containers. */
    method Alive(cs: seq<Container>, now: int, ghost stale: set<string>)
        returns (alive: seq<Container>, stops: set<string>)
      requires Valid() && AllKnown(cs)
      requires forall id :: id in IdsOf(cs) ==> (id in stale <==> IsStale(view.insts, id, now))
      ensures AllKnown(alive) && IdsOf(alive) == Keep(IdsOf(cs), stale)
      ensures stops == set id | id in IdsOf(cs) && id in stale
    {
      hide WellFormed, Grows, Pooled, PoolAgrees, LeasesAgree, Keep;
      KeepNone(stale);
      alive, stops := [], {};
      ghost var ids := IdsOf(cs);
      for i := 0 to |cs|
        invariant AllKnown(alive) && IdsOf(alive) == Keep(ids[..i], stale)
        invariant forall id :: id in stops <==> id in ids[..i] && id in stale
      {
        assert ids[..i + 1] == ids[..i] + [ids[i]] && ids[i] in ids;
        KeepSnoc(ids[..i], ids[i], stale);
        assert ids[i] in stale <==> cs[i].state == Idle && now - cs[i].lastUsed > 5 * MINUTE;
        if cs[i].state == Idle && now - cs[i].lastUsed > 5 * MINUTE {
          stops := stops + {cs[i].id};
        } else {
          PushIds(alive, cs[i]);
          alive := alive + [cs[i]];
        }
      }
      assert ids[..|cs|] == ids;
    }

    /** The idle half of the reaper: every slice is rebuilt, in any order of the map. */
    method ReapIdleContainers(now: int) returns (stops: set<string>)
      requires Valid()
      modifies this`pool, this`view
      ensures Valid() && (view, stops) == ReapIdle(old(view), now)
    {
      ghost var sh := view;
      ghost var stale := Stale(sh, now);
      ghost var swept: set<string> := {};
      var names := pool.Keys;
      stops := {};
      SweepAll(sh, Stale(sh, now));
      StaleInAll(sh, now);
      while names != {}
        invariant Valid() && Visiting(sh.pool.Keys, swept, names) && pool.Keys == sh.pool.Keys
        invariant view == SweepSome(sh, swept, stale)
        invariant stops == StaleIn(sh, swept, now)
        decreases names
      {
        var name :| name in names;
        VisitOne(sh.pool.Keys, swept, names, name);
        names := names - {name};
        var stopped := ReapSlice(name, now, sh, swept);
        stops := stops + stopped;
        swept := swept + {name};
      }
      assert swept + {} == swept;
    }

    /** One turn of the loop over the pool map. */
    method ReapSlice(name: string, now: int, ghost sh: Shared, ghost swept: set<string>) returns (stops: set<string>)
      requires Valid() && WellFormed(sh) && name in pool && name in sh.pool && name !in swept
      requires view == SweepSome(sh, swept, Stale(sh, now))
      modifies this`pool, this`view
      ensures Valid() && view == SweepSome(sh, swept + {name}, Stale(sh, now)) && pool.Keys == old(pool.Keys)
      ensures StaleIn(sh, swept + {name}, now) == StaleIn(sh, swept, now) + stops
    {
      SweepOneMore(sh, swept, name, Stale(sh, now));
      StaleOneMore(sh, swept, name, now);
      var alive;
      alive, stops := Alive(pool[name], now, Stale(sh, now));
      SetSlice(name, alive, SweepOne(view, name, Stale(sh, now)));
    }

    /** The search of RemoveIdle for the oldest idle container of a slice, -1 when there is none. */
    method Oldest(cs: seq<Container>) returns (oldest: int)
      requires Valid() && AllKnown(cs)
      ensures oldest == OldestIdle(view.insts, IdsOf(cs))
    {
      ghost var ids := IdsOf(cs);
      oldest := -1;
      for i := 0 to |cs|
        invariant oldest == OldestIdle(view.insts, ids[..i])
      {
        OldestTurn(view.insts, ids, i);
        if cs[i].state != Idle { continue; }
        if oldest == -1 || cs[i].lastUsed < cs[oldest].lastUsed {
          oldest := i;
        }
      }
      assert ids[..|cs|] == ids;
    }

    /** RemoveIdle. */
    method RemoveIdle(name: string, now: int) returns (removed: bool, stops: set<string>)
      requires Valid()
      modifies this`pool, this`view
      ensures Valid() && (view, stops) == ScaleDown(old(view), name, now)
      ensures removed <==> stops != {}
    {
      var cs := Slice(name);
      var oldest := Oldest(cs);
      if oldest == -1 || now - cs[oldest].lastUsed < 2 * MINUTE {
        return false, {};
      }
      Cut(name, cs, oldest);
      return true, {cs[oldest].id};
    }

    /** The section of Register: a name that is taken is refused. */
    method AddFunction(name: string, cfg: Config) returns (ok: bool)
      requires Valid()
      modifies this`functions, this`view
      ensures Valid() && ok == (name !in old(view).functions)
      ensures view == if ok then old(view).(functions := old(view).functions[name := cfg]) else old(view)
    {
      if name in functions {
        return false;
      }
      functions := functions[name := cfg];
      view := view.(functions := functions);
      ok := true;
    }

    /** What Register undoes when the metadata cannot be saved. */
    method DropFunction(name: string)
      requires Valid()
      modifies this`functions, this`view
      ensures Valid() && view == old(view).(functions := old(view).functions - {name})
    {
      functions := functions - {name};
      view := view.(functions := functions);
    }

    /** Deregister: the containers of the removed slice are all stopped. */
    method DeregisterFunction(name: string) returns (stops: set<string>)
      requires Valid()
      modifies this`functions, this`pool, this`view
      ensures Valid() && (view, stops) == Deregister(old(view), name)
    {
      var cs := Slice(name);
      functions := functions - {name};
      pool := pool - {name};
      view := Deregister(view, name).0;
      stops := set id | id in IdsOf(cs);
    }

    /** The second section of UploadCode: the slice it detaches is stopped once the metadata is saved. */
    method CommitCode(name: string, cfg: Config) returns (detached: set<string>)
      requires Valid()
      modifies this`functions, this`pool, this`view
      ensures Valid() && (view, detached) == CommitUpload(old(view), name, cfg)
    {
      hide WellFormed, Grows, Pooled;
      var cs := Slice(name);
      functions := functions[name := cfg];
      pool := pool[name := []];
      view := CommitUpload(view, name, cfg).0;
      detached := set id | id in IdsOf(cs);
    }

    /** The section of ColdStartOne before its goroutine: a port and the configuration to start from. */
    method BeginColdStart(name: string) returns (ok: bool, port: nat, code: nat)
      requires Valid()
      modifies this`nextPort, this`view
      ensures Valid() && ok == (name in view.functions)
      ensures !ok ==> view == old(view)
      ensures ok ==>
          view == old(view).(nextPort := port + 1) && port == old(view).nextPort && code == view.functions[name].code
    {
      ok, port, code := name in functions, nextPort, 0;
      if ok {
        code := functions[name].code;
        nextPort := nextPort + 1;
        view := view.(nextPort := nextPort);
      }
    }
  }
}
