/** The instance pool of gateway/scheduler/scheduler.go as values.

    `Shared` is everything that the scheduler's mutex protects, together with the containers that
    pool slices, lease records and callers point to.  Each function below is what one critical
    section does to it.  The class `Scheduler` carries the sections out on heap objects;
    `SchedulerProtocol` interleaves them. */
module InstancePool {

  datatype InstState = Idle | Busy | Starting

  /** A container: `port` stands for its host:port address, `code` for the upload it was started from. */
  datatype Inst = Inst(state: InstState, lastUsed: int, func: string, port: nat, code: nat)

  datatype TriggerConfig = TriggerConfig(id: string, kind: string, enabled: bool, mqId: string)

  /** `code` stands for the CodeDir, CodeKey and CodeURL that an upload writes. */
  datatype Config = Config(timeout: int, triggers: seq<TriggerConfig>, code: nat)

  datatype Lease = Lease(inst: string, deadline: int)

  datatype LeaseStatus = Success | Error | Timeout | Abandoned | Unknown(text: string)

  datatype Shared = Shared(
    functions: map<string, Config>,
    pool: map<string, seq<string>>,
    insts: map<string, Inst>,
    leases: map<string, Lease>,
    nextPort: nat)

  /** What the first critical section of Acquire decides. */
  datatype Taken = NotFound | Reused(id: string) | MustStart(port: nat, code: nat)

  const SECOND := 1_000_000_000
  const MINUTE := 60 * SECOND

  function PoolOf(sh: Shared, func: string): (ids: seq<string>) {
    if func in sh.pool then sh.pool[func] else []
  }

  /** The instance is listed in the pool of its own function. */
  predicate Pooled(sh: Shared, id: string) {
    id in sh.insts && id in PoolOf(sh, sh.insts[id].func)
  }

  ghost predicate NoDup(ids: seq<string>) {
    forall i, j :: 0 <= i < j < |ids| ==> ids[i] != ids[j]
  }

  /** The pool lists each instance at most once and under its own function; leases point at instances. */
  ghost predicate WellFormed(sh: Shared) {
    && (forall f :: f in sh.pool ==> NoDup(sh.pool[f]))
    && (forall f, id :: f in sh.pool && id in sh.pool[f] ==> id in sh.insts && sh.insts[id].func == f)
    && (forall l :: l in sh.leases ==> sh.leases[l].inst in sh.insts)
  }

  // ----- searching a pool slice -----

  predicate IsIdle(insts: map<string, Inst>, id: string) {
    id in insts && insts[id].state == Idle
  }

  /** The index of the first idle instance, or the length when there is none. */
  function FirstIdle(insts: map<string, Inst>, ids: seq<string>): (i: nat)
    ensures i <= |ids|
    ensures i < |ids| ==> IsIdle(insts, ids[i])
    ensures forall k :: 0 <= k < i ==> !IsIdle(insts, ids[k])
  {
    if ids == [] || IsIdle(insts, ids[0]) then 0 else 1 + FirstIdle(insts, ids[1..])
  }

  /** The index of the least recently used idle instance, the first one among equals, or -1. */
  function OldestIdle(insts: map<string, Inst>, ids: seq<string>): (r: int)
    ensures -1 <= r < |ids|
    ensures r == -1 <==> forall k :: 0 <= k < |ids| ==> !IsIdle(insts, ids[k])
    ensures r >= 0 ==> IsIdle(insts, ids[r])
    ensures r >= 0 ==> forall k :: 0 <= k < |ids| && IsIdle(insts, ids[k]) ==>
                insts[ids[r]].lastUsed <= insts[ids[k]].lastUsed
                  && (insts[ids[r]].lastUsed == insts[ids[k]].lastUsed ==> r <= k)
  {
    if ids == [] then -1
    else
      var n := |ids| - 1;
      var r := OldestIdle(insts, ids[..n]);
      assert forall k :: 0 <= k < n ==> ids[..n][k] == ids[k];
      if !IsIdle(insts, ids[n]) then r
      else if r == -1 || insts[ids[n]].lastUsed < insts[ids[r]].lastUsed then n
      else r
  }

  /** `ids` without the members of `gone`, in the same order. */
  function Keep(ids: seq<string>, gone: set<string>): (r: seq<string>)
    ensures forall id :: id in r <==> id in ids && id !in gone
    ensures NoDup(ids) ==> NoDup(r)
  {
    if ids == [] then []
    else
      var rest := Keep(ids[1..], gone);
      assert NoDup(ids) ==> NoDup(ids[1..]) && ids[0] !in ids[1..];
      if ids[0] in gone then rest else [ids[0]] + rest
  }

  /** How many of the listed instances are in `state`, as Stats counts them. */
  function Count(insts: map<string, Inst>, ids: seq<string>, state: InstState): nat {
    if ids == [] then 0
    else (if ids[0] in insts && insts[ids[0]].state == state then 1 else 0) + Count(insts, ids[1..], state)
  }

  // ----- facts about splicing -----

  lemma {:induction false} KeepNothing(ids: seq<string>, gone: set<string>)
    requires forall id :: id in ids ==> id !in gone
    ensures Keep(ids, gone) == ids
  {
    if ids != [] {
      assert ids == [ids[0]] + ids[1..];
      KeepNothing(ids[1..], gone);
    }
  }

  lemma {:induction false} KeepSnoc(ids: seq<string>, id: string, gone: set<string>)
    ensures Keep(ids + [id], gone) == Keep(ids, gone) + (if id in gone then [] else [id])
  {
    if ids == [] {
      assert ids + [id] == [id];
    } else {
      assert (ids + [id])[1..] == ids[1..] + [id];
      KeepSnoc(ids[1..], id, gone);
    }
  }

  lemma {:induction false} KeepTwice(ids: seq<string>, a: set<string>, b: set<string>)
    ensures Keep(Keep(ids, a), b) == Keep(ids, a + b)
  {
    if ids != [] {
      KeepTwice(ids[1..], a, b);
      var rest := Keep(ids[1..], a);
      if ids[0] !in a {
        assert ([ids[0]] + rest)[1..] == rest;
      }
    }
  }

  /** Cutting one entry out of a slice without duplicates is filtering it out. */
  lemma {:induction false} SpliceIsKeep(ids: seq<string>, i: nat)
    requires NoDup(ids) && i < |ids|
    ensures ids[..i] + ids[i + 1..] == Keep(ids, {ids[i]})
  {
    if i == 0 {
      KeepNothing(ids[1..], {ids[0]});
    } else {
      SpliceIsKeep(ids[1..], i - 1);
      assert ids[..i] + ids[i + 1..] == [ids[0]] + (ids[1..][..i - 1] + ids[1..][i..]);
    }
  }

  // ----- the critical sections -----

  predicate SameOrigin(a: Inst, b: Inst) {
    a.func == b.func && a.port == b.port && a.code == b.code
  }

  /** Instances are never forgotten and never change their identity; ports are only handed out upwards. */
  ghost predicate Grows(a: Shared, b: Shared) {
    && a.nextPort <= b.nextPort
    && (forall id | id in a.insts :: id in b.insts && SameOrigin(a.insts[id], b.insts[id]))
  }

  function SetState(sh: Shared, id: string, state: InstState, now: int): (r: Shared)
    requires id in sh.insts
    ensures WellFormed(sh) ==> WellFormed(r) && forall x :: Pooled(r, x) <==> Pooled(sh, x)
    ensures Grows(sh, r) && r.functions == sh.functions
  {
    sh.(insts := sh.insts[id := sh.insts[id].(state := state, lastUsed := now)])
  }

  /** Acquire up to its first unlock: reuse the first idle instance or reserve a port for a cold start. */
  function Take(sh: Shared, func: string, now: int): (r: (Shared, Taken))
    ensures WellFormed(sh) ==> WellFormed(r.0) && forall x :: Pooled(r.0, x) <==> Pooled(sh, x)
    ensures Grows(sh, r.0) && r.0.functions == sh.functions
    ensures r.1.Reused? ==> IsIdle(sh.insts, r.1.id) && (WellFormed(sh) ==> Pooled(sh, r.1.id))
  {
    if func !in sh.functions then (sh, NotFound)
    else
      var ids := PoolOf(sh, func);
      var i := FirstIdle(sh.insts, ids);
      if i < |ids| then (SetState(sh, ids[i], Busy, now), Reused(ids[i]))
      else (sh.(nextPort := sh.nextPort + 1), MustStart(sh.nextPort, sh.functions[func].code))
  }

  /** A started instance is appended to the pool of the function it was requested for. */
  function AddStarted(sh: Shared, id: string, inst: Inst): (r: Shared)
    requires id !in sh.insts
    ensures WellFormed(sh) ==> WellFormed(r) && forall x :: Pooled(r, x) <==> Pooled(sh, x) || x == id
    ensures Grows(sh, r) && r.functions == sh.functions
  {
    sh.(pool := sh.pool[inst.func := PoolOf(sh, inst.func) + [id]], insts := sh.insts[id := inst])
  }

  function Detach(sh: Shared, gone: set<string>): (r: Shared)
    ensures WellFormed(sh) ==> WellFormed(r) && forall x :: Pooled(r, x) <==> Pooled(sh, x) && x !in gone
    ensures Grows(sh, r) && r.functions == sh.functions
  {
    hide Keep;
    sh.(pool := map f | f in sh.pool :: Keep(sh.pool[f], gone))
  }

  function RecordLease(sh: Shared, lease: string, id: string, timeout: int, now: int): (r: Shared)
    requires id in sh.insts
    ensures WellFormed(sh) ==> WellFormed(r) && forall x :: Pooled(r, x) <==> Pooled(sh, x)
    ensures Grows(sh, r) && r.functions == sh.functions
  {
    sh.(leases := sh.leases[lease := Lease(id, now + timeout * SECOND + 5 * SECOND)])
  }

  predicate Retires(status: LeaseStatus) {
    status == Timeout || status == Abandoned
  }

  function DropLeases(sh: Shared, ended: set<string>): (r: Shared)
    ensures WellFormed(sh) ==> WellFormed(r) && forall x :: Pooled(r, x) <==> Pooled(sh, x)
    ensures Grows(sh, r) && r.functions == sh.functions
  {
    sh.(leases := sh.leases - ended)
  }

  /** releaseInstanceLocked on a lease that exists: the state, and the ids to hand to stop. */
  function EndLease(sh: Shared, lease: string, status: LeaseStatus, now: int): (r: (Shared, set<string>))
    requires lease in sh.leases && sh.leases[lease].inst in sh.insts
    ensures WellFormed(sh) ==> WellFormed(r.0) && forall x :: Pooled(r.0, x) <==> Pooled(sh, x) && x !in r.1
    ensures Grows(sh, r.0) && r.0.functions == sh.functions
  {
    var id := sh.leases[lease].inst;
    var rest := DropLeases(sh, {lease});
    if Retires(status) then (Detach(rest, {id}), {id}) else (SetState(rest, id, Idle, now), {})
  }

  function Expired(sh: Shared, now: int): set<string> {
    set l | l in sh.leases && now > sh.leases[l].deadline
  }

  function LeasedBy(sh: Shared, leases: set<string>): set<string>
    requires leases <= sh.leases.Keys
  {
    set l | l in leases :: sh.leases[l].inst
  }

  /** The given leases end and their instances leave the pools. */
  function ReapSome(sh: Shared, ended: set<string>): (r: Shared)
    requires ended <= sh.leases.Keys
    ensures WellFormed(sh) ==> WellFormed(r) && forall x :: Pooled(r, x) <==> Pooled(sh, x) && x !in LeasedBy(sh, ended)
    ensures Grows(sh, r) && r.functions == sh.functions
  {
    Detach(DropLeases(sh, ended), LeasedBy(sh, ended))
  }

  /** reapExpiredLeases, independent of the order in which the map is ranged over. */
  function ReapLeases(sh: Shared, now: int): (r: (Shared, set<string>))
    ensures WellFormed(sh) ==> WellFormed(r.0) && forall x :: Pooled(r.0, x) <==> Pooled(sh, x) && x !in r.1
    ensures Grows(sh, r.0) && r.0.functions == sh.functions
  {
    (ReapSome(sh, Expired(sh, now)), LeasedBy(sh, Expired(sh, now)))
  }

  predicate IsStale(insts: map<string, Inst>, id: string, now: int) {
    IsIdle(insts, id) && now - insts[id].lastUsed > 5 * MINUTE
  }

  /** The instances that the idle reaper retires. */
  function Stale(sh: Shared, now: int): set<string> {
    set id | id in sh.insts && Pooled(sh, id) && IsStale(sh.insts, id, now)
  }

  function ReapIdle(sh: Shared, now: int): (r: (Shared, set<string>))
    ensures WellFormed(sh) ==> WellFormed(r.0) && forall x :: Pooled(r.0, x) <==> Pooled(sh, x) && x !in r.1
    ensures Grows(sh, r.0) && r.0.functions == sh.functions
  {
    (Detach(sh, Stale(sh, now)), Stale(sh, now))
  }

  /** Entry `i` of a pool slice is cut out. */
  function Splice(sh: Shared, func: string, i: nat): (r: Shared)
    requires i < |PoolOf(sh, func)|
    ensures WellFormed(sh) ==> r == Detach(sh, {PoolOf(sh, func)[i]})
  {
    var ids := PoolOf(sh, func);
    assert WellFormed(sh) ==> ids[..i] + ids[i + 1..] == Keep(ids, {ids[i]}) by {
      if WellFormed(sh) { SpliceIsKeep(ids, i); }
    }
    SpliceOthers(sh, func, ids[i]);
    sh.(pool := sh.pool[func := ids[..i] + ids[i + 1..]])
  }

  lemma SpliceOthers(sh: Shared, func: string, id: string)
    ensures WellFormed(sh) && id in PoolOf(sh, func) ==>
              Detach(sh, {id}).pool == sh.pool[func := Keep(PoolOf(sh, func), {id})]
  {
    if WellFormed(sh) && id in PoolOf(sh, func) {
      assert sh.insts[id].func == func;
      forall f | f in sh.pool && f != func ensures Keep(sh.pool[f], {id}) == sh.pool[f] {
        KeepNothing(sh.pool[f], {id});
      }
    }
  }

  /** RemoveIdle: retire the oldest idle instance, if it has been idle for two minutes. */
  function ScaleDown(sh: Shared, func: string, now: int): (r: (Shared, set<string>))
    ensures WellFormed(sh) ==> WellFormed(r.0) && forall x :: Pooled(r.0, x) <==> Pooled(sh, x) && x !in r.1
    ensures Grows(sh, r.0) && r.0.functions == sh.functions
  {
    var ids := PoolOf(sh, func);
    var i := OldestIdle(sh.insts, ids);
    if i == -1 || now - sh.insts[ids[i]].lastUsed < 2 * MINUTE then (sh, {})
    else (Splice(sh, func, i), {ids[i]})
  }

  function Ids(ids: seq<string>): set<string> {
    set id | id in ids
  }

  function Deregister(sh: Shared, func: string): (r: (Shared, set<string>))
    ensures WellFormed(sh) ==> WellFormed(r.0) && forall x :: Pooled(r.0, x) <==> Pooled(sh, x) && x !in r.1
    ensures Grows(sh, r.0)
  {
    (sh.(functions := sh.functions - {func}, pool := sh.pool - {func}), Ids(PoolOf(sh, func)))
  }

  /** UploadCode's second section: the new configuration goes in and the pool is emptied. */
  function CommitUpload(sh: Shared, func: string, cfg: Config): (r: (Shared, set<string>))
    ensures WellFormed(sh) ==> WellFormed(r.0) && forall x :: Pooled(r.0, x) <==> Pooled(sh, x) && x !in r.1
    ensures Grows(sh, r.0)
  {
    (sh.(functions := sh.functions[func := cfg], pool := sh.pool[func := []]), Ids(PoolOf(sh, func)))
  }

  /** clampLeaseTimeout with the environment's maximum as a parameter. */
  function ClampLeaseTimeout(requested: int, functionTimeout: int, envMax: int): (timeout: int)
    ensures 1 <= timeout
    ensures var most := if functionTimeout > 0 then functionTimeout else if envMax > 0 then envMax else 300;
            timeout <= most && (0 < requested <= most ==> timeout == requested)
  {
    var fallback := if envMax <= 0 then 300 else envMax;
    var most := if functionTimeout <= 0 then fallback else functionTimeout;
    var wanted := if requested <= 0 then functionTimeout else requested;
    var atLeast := if wanted <= 0 then 30 else wanted;
    if atLeast > most then most else atLeast
  }

  predicate TriggerAllows(cfg: Config, trigger: string, mqId: string) {
    && trigger != "" && mqId != ""
    && exists i :: 0 <= i < |cfg.triggers| &&
         cfg.triggers[i].id == trigger && cfg.triggers[i].mqId == mqId && cfg.triggers[i].kind == "mq"
           && cfg.triggers[i].enabled
  }

  lemma DetachTwice(sh: Shared, a: set<string>, b: set<string>)
    ensures Detach(Detach(sh, a), b) == Detach(sh, a + b)
  {
    forall f | f in sh.pool ensures Keep(Keep(sh.pool[f], a), b) == Keep(sh.pool[f], a + b) {
      KeepTwice(sh.pool[f], a, b);
    }
  }

  lemma DetachNothing(sh: Shared, gone: set<string>)
    requires WellFormed(sh) && forall id :: id in gone ==> !Pooled(sh, id)
    ensures Detach(sh, gone) == sh
  {
    forall f | f in sh.pool ensures Keep(sh.pool[f], gone) == sh.pool[f] {
      forall id | id in sh.pool[f] ensures id !in gone { assert Pooled(sh, id); }
      KeepNothing(sh.pool[f], gone);
    }
  }

  /** Ending one more lease by timeout is what one turn of the reaping loop does. */
  lemma ReapOneMore(sh: Shared, ended: set<string>, lease: string, now: int)
    requires WellFormed(sh) && ended <= sh.leases.Keys && lease in sh.leases && lease !in ended
    ensures ReapSome(sh, ended + {lease}) == EndLease(ReapSome(sh, ended), lease, Timeout, now).0
    ensures LeasedBy(sh, ended + {lease}) == LeasedBy(sh, ended) + {sh.leases[lease].inst}
    ensures lease in ReapSome(sh, ended).leases && ReapSome(sh, ended).leases[lease] == sh.leases[lease]
  {
    var rest := DropLeases(sh, ended + {lease});
    var id := sh.leases[lease].inst;
    DetachTwice(rest, LeasedBy(sh, ended), {id});
    assert LeasedBy(sh, ended + {lease}) == LeasedBy(sh, ended) + {id};
    assert DropLeases(ReapSome(sh, ended), {lease}) == Detach(rest, LeasedBy(sh, ended));
  }

  lemma ReapNone(sh: Shared)
    requires WellFormed(sh)
    ensures ReapSome(sh, {}) == sh && LeasedBy(sh, {}) == {}
  {
    assert DropLeases(sh, {}) == sh by { assert sh.leases - {} == sh.leases; }
    assert LeasedBy(sh, {}) == {};
    DetachNothing(sh, {});
  }

  /** The keys of a map that is ranged over: those done and those to come. */
  ghost predicate Visiting(all: set<string>, done: set<string>, todo: set<string>) {
    done !! todo && all == done + todo
  }

  lemma VisitOne(all: set<string>, done: set<string>, todo: set<string>, key: string)
    requires Visiting(all, done, todo) && key in todo
    ensures Visiting(all, done + {key}, todo - {key}) && todo - {key} < todo && key !in done && key in all
  {
  }

  /** One turn of the loop of reapExpiredLeases. */
  function ReapTurn(sh: Shared, lease: string, now: int): (Shared, set<string>)
    requires lease in sh.leases && sh.leases[lease].inst in sh.insts
  {
    if now > sh.leases[lease].deadline then EndLease(sh, lease, Timeout, now) else (sh, {})
  }

  lemma ReapTurnStep(sh: Shared, seen: set<string>, lease: string, now: int)
    requires WellFormed(sh) && lease in sh.leases && lease !in seen
    ensures var due := Expired(sh, now);
            var v := ReapSome(sh, seen * due);
            && lease in v.leases && WellFormed(v) && v.leases[lease].inst in v.insts
            && ReapTurn(v, lease, now).0 == ReapSome(sh, (seen + {lease}) * due)
            && LeasedBy(sh, (seen + {lease}) * due) == LeasedBy(sh, seen * due) + ReapTurn(v, lease, now).1
  {
    ReapOneMore(sh, seen * Expired(sh, now), lease, now);
    VisitDue(Expired(sh, now), seen, lease);
  }

  lemma VisitDue(due: set<string>, done: set<string>, key: string)
    ensures (done + {key}) * due == if key in due then done * due + {key} else done * due
  {
  }

  // ----- the idle reaper, one slice at a time -----

  /** The pools of `names` without the given instances. */
  function SweepSome(sh: Shared, names: set<string>, gone: set<string>): Shared {
    sh.(pool := map f | f in sh.pool :: if f in names then Keep(sh.pool[f], gone) else sh.pool[f])
  }

  function SweepOne(sh: Shared, name: string, gone: set<string>): (r: Shared)
    requires name in sh.pool
    ensures WellFormed(sh) ==> WellFormed(r)
  {
    sh.(pool := sh.pool[name := Keep(sh.pool[name], gone)])
  }

  lemma SweepOneMore(sh: Shared, names: set<string>, name: string, gone: set<string>)
    requires name in sh.pool && name !in names
    ensures SweepSome(sh, names + {name}, gone) == SweepOne(SweepSome(sh, names, gone), name, gone)
    ensures SweepSome(sh, names, gone).pool[name] == sh.pool[name]
  {
  }

  lemma SweepAll(sh: Shared, gone: set<string>)
    ensures SweepSome(sh, sh.pool.Keys, gone) == Detach(sh, gone) && SweepSome(sh, {}, gone) == sh
  {
  }

  function StaleIn(sh: Shared, names: set<string>, now: int): set<string> {
    set id | id in sh.insts && sh.insts[id].func in names && id in Stale(sh, now)
  }

  lemma StaleOneMore(sh: Shared, names: set<string>, name: string, now: int)
    requires WellFormed(sh)
    ensures StaleIn(sh, names + {name}, now) == StaleIn(sh, names, now)
        + (set id | id in PoolOf(sh, name) && id in Stale(sh, now))
    ensures forall id :: id in PoolOf(sh, name) ==> (id in Stale(sh, now) <==> IsStale(sh.insts, id, now))
  {
    assert forall id :: id in PoolOf(sh, name) ==> id in sh.insts && sh.insts[id].func == name;
  }

  lemma StaleInAll(sh: Shared, now: int)
    ensures StaleIn(sh, sh.pool.Keys, now) == Stale(sh, now) && StaleIn(sh, {}, now) == {}
  {
  }
}
