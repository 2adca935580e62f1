/** What reconciling does with the configured triggers, in their own fields: which of several triggers wins, what its
    consumer runs with, when a start fails, and what a configuration is refused for. */
module ReconcileEffects {
  import opened Reconcile
  import opened Options
  import Names

  // ----- keys, their order, and who wins -----

  /** A key is the mq_id, the function and the trigger's id, separated by colons. */
  lemma KeyParts(t: Trigger)
    ensures var k, m, f := Key(t), |t.mqId|, |t.func|;
            && |k| == m + f + |t.id| + 2 && k[..m] == t.mqId && k[m] == ':' && k[m + 1..m + 1 + f] == t.func
            && k[m + 1 + f] == ':' && k[m + f + 2..] == t.id
  {
  }

  /** The strings agree up to i, where the first one ends or has the smaller character. */
  predicate OrderedAt(a: string, b: string, i: nat) {
    i <= |a| && i <= |b| && (forall j | 0 <= j < i :: a[j] == b[j]) && (i == |a| || (i < |b| && a[i] < b[i]))
  }

  /** So the order of strings is that of their first difference. */
  lemma {:induction false} AtMostMeans(a: string, b: string)
    ensures AtMost(a, b) <==> exists i: nat :: OrderedAt(a, b, i)
  {
    if a == "" {
      assert OrderedAt(a, b, 0);
    } else if b != "" && a[0] == b[0] {
      AtMostMeans(a[1..], b[1..]);
      if i: nat :| OrderedAt(a[1..], b[1..], i) { LaterOrdered(a, b, i); }
      if i: nat :| OrderedAt(a, b, i) { EarlierOrdered(a, b, i); }
    } else if b != "" && a[0] < b[0] {
      assert OrderedAt(a, b, 0);
    }
  }

  lemma LaterOrdered(a: string, b: string, i: nat)
    requires a != "" && b != "" && a[0] == b[0] && OrderedAt(a[1..], b[1..], i)
    ensures OrderedAt(a, b, i + 1)
  {
    forall j | 0 <= j < i + 1 ensures a[j] == b[j] {
      if j > 0 { assert a[1..][j - 1] == b[1..][j - 1]; }
    }
  }

  lemma EarlierOrdered(a: string, b: string, i: nat)
    requires a != "" && b != "" && a[0] == b[0] && OrderedAt(a, b, i)
    ensures i > 0 && OrderedAt(a[1..], b[1..], i - 1)
  {
  }

  /** Entry i is the last one of the list with its key. */
  predicate LastOfKey(ts: seq<Trigger>, i: nat) {
    i < |ts| && forall j | i < j < |ts| :: Key(ts[j]) != Key(ts[i])
  }

  lemma {:induction false} LastIs(ts: seq<Trigger>, key: string) returns (i: nat)
    ensures Last(ts, key).Some? ==> LastOfKey(ts, i) && ts[i] == Last(ts, key).value
    ensures Last(ts, key) == None ==> forall j | 0 <= j < |ts| :: Key(ts[j]) != key
  {
    i := 0;
    if ts != [] {
      if Key(ts[|ts| - 1]) == key {
        i := |ts| - 1;
      } else {
        i := LastIs(ts[..|ts| - 1], key);
        forall j | 0 <= j < |ts| && Last(ts, key) == None ensures Key(ts[j]) != key {
          if j < |ts| - 1 { assert ts[..|ts| - 1][j] == ts[j]; }
        }
        forall j | i < j < |ts| && Last(ts, key).Some? ensures Key(ts[j]) != Key(ts[i]) {
          if j < |ts| - 1 { assert ts[..|ts| - 1][j] == ts[j]; }
        }
      }
    }
  }

  lemma {:induction false} LastOfKeyIs(ts: seq<Trigger>, i: nat)
    requires LastOfKey(ts, i)
    ensures Last(ts, Key(ts[i])) == Some(ts[i])
  {
    if i < |ts| - 1 { LastOfKeyIs(ts[..|ts| - 1], i); }
  }

  /** The merge holds the last discovered trigger of each key, and the last configured one of each key that was not
      discovered; and nothing else. */
  lemma MergeHolds(local: seq<Trigger>, remote: seq<Trigger>, r: seq<Trigger>, t: Trigger)
    requires IsMerge(local, remote, r)
    ensures t in r <==> IsLastIn(remote, t) || (HasNot(remote, Key(t)) && IsLastIn(local, t))
  {
    assert t in r <==> Winner(local, remote, Key(t)) == Some(t);
    hide IsMerge, Last;
    LastInIs(remote, t);
    LastInIs(local, t);
  }

  /** The trigger is the last one of its key in the list. */
  ghost predicate IsLastIn(ts: seq<Trigger>, t: Trigger) { exists i: nat :: LastOfKey(ts, i) && ts[i] == t }

  predicate HasNot(ts: seq<Trigger>, key: string) { forall j | 0 <= j < |ts| :: Key(ts[j]) != key }

  lemma LastInIs(ts: seq<Trigger>, t: Trigger)
    ensures IsLastIn(ts, t) <==> Last(ts, Key(t)) == Some(t)
    ensures HasNot(ts, Key(t)) <==> Last(ts, Key(t)) == None
  {
    var i := LastIs(ts, Key(t));
    hide Last, Names.TriggerKey;
    if k: nat :| LastOfKey(ts, k) && ts[k] == t { LastOfKeyIs(ts, k); }
    if Last(ts, Key(t)).Some? { LastHasKey(ts, Key(t)); }
  }

  lemma LastHasKey(ts: seq<Trigger>, key: string)
    requires Last(ts, key).Some?
    ensures Key(Last(ts, key).value) == key
  {
  }

  /** The last instance of an id is the one that counts. */
  lemma {:induction false} InstanceIs(instances: seq<MqInstance>, i: nat)
    requires i < |instances| && forall j | i < j < |instances| :: instances[j].mqId != instances[i].mqId
    ensures var m := InstancesById(instances); instances[i].mqId in m && m[instances[i].mqId] == instances[i]
  {
    if i < |instances| - 1 { InstanceIs(instances[..|instances| - 1], i); }
  }

  /** The unknown trigger that is reported is the first enabled one whose mq_id is unknown. */
  lemma {:induction false} UnknownIsFirst(instances: map<string, MqInstance>, ts: seq<Trigger>) returns (i: nat)
    requires Unknown(instances, ts).Some?
    ensures i < |ts| && Unknown(instances, ts) == Some(ts[i]) && ts[i].enabled && ts[i].mqId !in instances
    ensures forall j | 0 <= j < i :: ts[j].enabled ==> ts[j].mqId in instances
  {
    var init := ts[..|ts| - 1];
    if Unknown(instances, init).Some? {
      i := UnknownIsFirst(instances, init);
      forall j | 0 <= j < i ensures ts[j].enabled ==> ts[j].mqId in instances { assert ts[j] == init[j]; }
    } else {
      i := |ts| - 1;
      forall j | 0 <= j < i ensures ts[j].enabled ==> ts[j].mqId in instances { assert ts[j] == init[j]; }
    }
  }

  /** And its id is what is reported, before anything changes. */
  lemma UnknownReported(v: State, instances: map<string, MqInstance>, ts: seq<Trigger>, reachable: set<string>)
    returns (i: nat)
    requires exists t :: t in ts && t.enabled && t.mqId !in instances
    ensures i < |ts| && ts[i].enabled && ts[i].mqId !in instances
    ensures forall j | 0 <= j < i :: ts[j].enabled ==> ts[j].mqId in instances
    ensures Reconciled(v, instances, ts, reachable) == (v, UnknownMq(ts[i].id))
  {
    i := UnknownIsFirst(instances, ts);
  }

  // ----- what a consumer runs with -----

  /** Entry i is enabled, and the last enabled one of the list with its key. */
  predicate LastEnabled(ts: seq<Trigger>, i: nat) {
    i < |ts| && ts[i].enabled && forall j | i < j < |ts| :: ts[j].enabled ==> Key(ts[j]) != Key(ts[i])
  }

  lemma {:induction false} DesiredAt(instances: map<string, MqInstance>, ts: seq<Trigger>, i: nat)
    requires Unknown(instances, ts) == None && LastEnabled(ts, i)
    ensures Key(ts[i]) in Desired(instances, ts) && ts[i].mqId in instances
    ensures Desired(instances, ts)[Key(ts[i])] == Normalize(ts[i], instances[ts[i].mqId])
  {
    var init, last := ts[..|ts| - 1], ts[|ts| - 1];
    assert ts[i] in ts && last in ts;
    if last.enabled { ByKeySnoc(Enabled(instances, init), Normalize(last, instances[last.mqId])); }
    if i < |ts| - 1 {
      DesiredAt(instances, init, i);
      assert Enabled(instances, init) + [] == Enabled(instances, init);
    }
  }

  lemma {:induction false} DesiredFrom(instances: map<string, MqInstance>, ts: seq<Trigger>, key: string)
    returns (i: nat)
    requires Unknown(instances, ts) == None && key in Desired(instances, ts)
    ensures LastEnabled(ts, i) && Key(ts[i]) == key
  {
    var init, last := ts[..|ts| - 1], ts[|ts| - 1];
    assert last in ts;
    if last.enabled {
      ByKeySnoc(Enabled(instances, init), Normalize(last, instances[last.mqId]));
    } else {
      assert Enabled(instances, init) + [] == Enabled(instances, init);
    }
    if last.enabled && Key(last) == key {
      i := |ts| - 1;
    } else {
      i := DesiredFrom(instances, init, key);
      forall j | i < j < |ts| ensures ts[j].enabled ==> Key(ts[j]) != Key(ts[i]) {
        if j < |ts| - 1 { assert init[j] == ts[j]; }
      }
    }
  }

  /** The consumers are exactly those of the last enabled triggers of each key, and each runs as configured. */
  ghost predicate AreConfigured(consumers: map<string, Consumer>, instances: map<string, MqInstance>,
      ts: seq<Trigger>) {
    && (forall i: nat | LastEnabled(ts, i) :: RunsConfigured(consumers, instances, ts[i]))
    && (forall k | k in consumers :: exists i: nat :: LastEnabled(ts, i) && Key(ts[i]) == k)
  }

  predicate RunsConfigured(consumers: map<string, Consumer>, instances: map<string, MqInstance>, t: Trigger) {
    t.mqId in instances && Key(t) in consumers && RunsAs(consumers[Key(t)].trigger, t, instances[t.mqId])
  }

  /** After nil, the consumers are exactly those of the last enabled triggers of each key, and each runs with the queue,
      the dead-letter queue, the limits and the function that its trigger configures. */
  lemma ConsumersAreConfigured(v: State, instances: map<string, MqInstance>, ts: seq<Trigger>, reachable: set<string>)
    requires Inv(v) && Reconciled(v, instances, ts, reachable).1.Ok?
    ensures AreConfigured(Reconciled(v, instances, ts, reachable).0.consumers, instances, ts)
  {
    ReconcileReaches(v, instances, ts, reachable);
    MatchingIsConfigured(Reconciled(v, instances, ts, reachable).0.consumers, instances, ts);
  }

  lemma MatchingIsConfigured(consumers: map<string, Consumer>, instances: map<string, MqInstance>, ts: seq<Trigger>)
    requires Unknown(instances, ts) == None && Matches(consumers, Desired(instances, ts))
    ensures AreConfigured(consumers, instances, ts)
  {
    hide Unknown, Desired, RunsAs;
    forall i: nat | LastEnabled(ts, i) ensures RunsConfigured(consumers, instances, ts[i]) {
      DesiredAt(instances, ts, i);
    }
    forall k | k in consumers ensures exists i: nat :: LastEnabled(ts, i) && Key(ts[i]) == k {
      var i := DesiredFrom(instances, ts, k);
    }
  }

  // ----- when a start fails -----

  /** The broker of the trigger was dialled before, or can be: it is a RabbitMQ and answers. */
  predicate CanStart(v: State, t: Trigger, instances: map<string, MqInstance>, reachable: set<string>) {
    t.mqId in v.brokers
    || (t.mqId in instances && instances[t.mqId].broker == "rabbitmq" && t.mqId in reachable)
  }

  function MqIds(ts: seq<Trigger>): set<string> { set t | t in ts :: t.mqId }

  /** Trigger i of the list is the first that cannot be started; the brokers of those before it were dialled. */
  predicate StopsAt(v: State, w: State, outcome: Outcome, ts: seq<Trigger>, i: nat,
                    instances: map<string, MqInstance>, reachable: set<string>) {
    && i < |ts| && outcome == BrokerFailed(ts[i].id) && !CanStart(v, ts[i], instances, reachable)
    && (forall j | 0 <= j < i :: CanStart(v, ts[j], instances, reachable))
    && w.brokers == v.brokers + MqIds(ts[..i])
  }

  lemma StartOneEffect(v: State, t: Trigger, instances: map<string, MqInstance>, reachable: set<string>,
                       desired: map<string, Trigger>)
    requires t.mqId in instances && Key(t) in desired && desired[Key(t)] == t && Wanted(v.consumers, desired)
    ensures var (u, outcome) := StartOne(v, t, instances, reachable);
            && Wanted(u.consumers, desired)
            && if CanStart(v, t, instances, reachable) then outcome.Ok? && u.brokers == v.brokers + {t.mqId}
               else outcome == BrokerFailed(t.id) && u == v
  {
  }

  /** Dialling one more broker that can be dialled changes nothing in what can be started. */
  lemma CanStillStart(v: State, u: State, t: Trigger, x: Trigger, instances: map<string, MqInstance>,
                      reachable: set<string>)
    requires CanStart(v, t, instances, reachable) && t.mqId in instances && u.brokers == v.brokers + {t.mqId}
    ensures t.mqId != x.mqId ==> (CanStart(u, x, instances, reachable) <==> CanStart(v, x, instances, reachable))
    ensures t.mqId == x.mqId ==> CanStart(u, x, instances, reachable) && CanStart(v, x, instances, reachable)
  {
  }

  lemma StopsLater(v: State, u: State, w: State, outcome: Outcome, ts: seq<Trigger>, i: nat,
                   instances: map<string, MqInstance>, reachable: set<string>)
    requires ts != [] && StopsAt(u, w, outcome, ts[1..], i, instances, reachable)
    requires CanStart(v, ts[0], instances, reachable) && u.brokers == v.brokers + {ts[0].mqId}
    requires forall x :: CanStart(u, x, instances, reachable) <==> CanStart(v, x, instances, reachable)
    ensures StopsAt(v, w, outcome, ts, i + 1, instances, reachable)
  {
    hide CanStart;
    var rest := ts[1..];
    assert ts[..i + 1] == [ts[0]] + rest[..i];
    assert MqIds(ts[..i + 1]) == {ts[0].mqId} + MqIds(rest[..i]);
    forall j | 0 <= j < i + 1 ensures CanStart(v, ts[j], instances, reachable) {
      if j > 0 { assert ts[j] == rest[j - 1]; }
    }
  }

  /** Starting goes on up to the first trigger that cannot be started, and reports that one. */
  lemma {:induction false} StartAllEffect(v: State, ts: seq<Trigger>, instances: map<string, MqInstance>,
                                          reachable: set<string>, desired: map<string, Trigger>)
    requires forall t :: t in ts ==> t.mqId in instances && Key(t) in desired && desired[Key(t)] == t
    requires Wanted(v.consumers, desired)
    ensures var (w, outcome) := StartAll(v, ts, instances, reachable);
            if outcome.Ok? then
              (forall t :: t in ts ==> CanStart(v, t, instances, reachable)) && w.brokers == v.brokers + MqIds(ts)
            else exists i: nat :: StopsAt(v, w, outcome, ts, i, instances, reachable)
    decreases |ts|
  {
    if ts != [] {
      hide Wanted, CanStart;
      var t, rest := ts[0], ts[1..];
      StartOneEffect(v, t, instances, reachable, desired);
      var u := StartOne(v, t, instances, reachable).0;
      assert ts == [t] + rest;
      if CanStart(v, t, instances, reachable) {
        StartAllEffect(u, rest, instances, reachable, desired);
        hide StartOne;
        var (w, outcome) := StartAll(v, ts, instances, reachable);
        forall x ensures CanStart(u, x, instances, reachable) <==> CanStart(v, x, instances, reachable) {
          CanStillStart(v, u, t, x, instances, reachable);
        }
        assert MqIds(ts) == {t.mqId} + MqIds(rest);
        if !outcome.Ok? {
          var i: nat :| StopsAt(u, w, outcome, rest, i, instances, reachable);
          StopsLater(v, u, w, outcome, ts, i, instances, reachable);
        }
      } else {
        assert ts[..0] == [] && MqIds([]) == {};
        assert StopsAt(v, u, BrokerFailed(t.id), ts, 0, instances, reachable);
      }
    }
  }

  /** The desired trigger of this key runs unchanged, or can be started. */
  predicate WillRun(v: State, desired: map<string, Trigger>, k: string, instances: map<string, MqInstance>,
                    reachable: set<string>)
    requires k in desired
  {
    || (k in v.consumers && v.consumers[k].trigger == desired[k])
    || CanStart(v, desired[k], instances, reachable)
  }

  /** Reconciling succeeds exactly if every desired trigger runs unchanged already or can be started; otherwise it
      reports, in the order of the keys, the first one that can not. */
  lemma SucceedsExactly(v: State, instances: map<string, MqInstance>, ts: seq<Trigger>, reachable: set<string>)
    requires Inv(v) && Unknown(instances, ts) == None
    ensures var desired, keys := Desired(instances, ts), SortedKeys(instances, ts);
            var outcome := Reconciled(v, instances, ts, reachable).1;
            && (outcome.Ok? <==> forall k | k in desired :: WillRun(v, desired, k, instances, reachable))
            && (!outcome.Ok? ==> exists i: nat ::
                  && i < |keys| && outcome == BrokerFailed(desired[keys[i]].id)
                  && !WillRun(v, desired, keys[i], instances, reachable)
                  && forall j | 0 <= j < i :: WillRun(v, desired, keys[j], instances, reachable))
  {
    var desired, keys := Desired(instances, ts), SortedKeys(instances, ts);
    StartKnown(v, instances, ts);
    DesiredKeys(instances, ts);
    hide Unknown, Desired, SortedKeys;
    SectionSucceeds(v, desired, keys, instances, reachable);
  }

  lemma DesiredKeys(instances: map<string, MqInstance>, ts: seq<Trigger>)
    requires Unknown(instances, ts) == None
    ensures var desired, keys := Desired(instances, ts), SortedKeys(instances, ts);
            && (forall k :: k in keys <==> k in desired) && (forall k :: k in desired ==> Key(desired[k]) == k)
            && forall t :: t in Pick(desired, keys) ==> t.mqId in instances
  {
    EnabledKnown(instances, ts);
    hide Unknown, Enabled, SortedKeys;
  }

  lemma SectionSucceeds(v: State, desired: map<string, Trigger>, keys: seq<string>,
                        instances: map<string, MqInstance>, reachable: set<string>)
    requires Inv(v) && (forall k :: k in keys <==> k in desired) && forall k :: k in desired ==> Key(desired[k]) == k
    requires forall t :: t in Pick(desired, keys) ==> t.mqId in instances
    ensures var w := Section(v, desired, keys);
            var start := ToStart(w.consumers, w.triggers);
            (forall t :: t in start ==> t.mqId in instances) &&
            var outcome := StartAll(w, start, instances, reachable).1;
            && (outcome.Ok? <==> forall k | k in desired :: WillRun(v, desired, k, instances, reachable))
            && (!outcome.Ok? ==> exists i: nat ::
                  && i < |keys| && outcome == BrokerFailed(desired[keys[i]].id)
                  && !WillRun(v, desired, keys[i], instances, reachable)
                  && forall j | 0 <= j < i :: WillRun(v, desired, keys[j], instances, reachable))
  {
    var w := Section(v, desired, keys);
    var start := ToStart(w.consumers, w.triggers);
    ToStartFrom(w.consumers, w.triggers);
    SectionRuns(v, desired, keys);
    hide Section, Inv, ToStart, CanStart, Key, SameTrigger;
    assert Wanted(w.consumers, desired);
    StartAllEffect(w, start, instances, reachable, desired);
    hide StartAll, Wanted;
    forall k | k in desired ensures WillRun(v, desired, k, instances, reachable)
                                    <==> desired[k] !in start || CanStart(w, desired[k], instances, reachable) {
      var i :| 0 <= i < |keys| && keys[i] == k;
      assert w.triggers[i] == desired[k];
      SameBrokers(v, w, desired[k], instances, reachable);
    }
    hide WillRun;
    var outcome := StartAll(w, start, instances, reachable).1;
    if !outcome.Ok? {
      var u := StartAll(w, start, instances, reachable).0;
      var i: nat :| StopsAt(w, u, outcome, start, i, instances, reachable);
      var at := FirstStopped(v, w, u, outcome, desired, keys, i, instances, reachable);
    }
  }

  /** Where the first trigger that cannot be started stands among the keys. */
  lemma FirstStopped(v: State, w: State, u: State, outcome: Outcome, desired: map<string, Trigger>, keys: seq<string>,
                     i: nat, instances: map<string, MqInstance>, reachable: set<string>) returns (at: nat)
    requires (forall k :: k in keys <==> k in desired) && w.triggers == Pick(desired, keys)
    requires StopsAt(w, u, outcome, ToStart(w.consumers, w.triggers), i, instances, reachable)
    requires forall k | k in desired ::
               Runs(w.consumers, desired[k]) <==> k in v.consumers && v.consumers[k].trigger == desired[k]
    requires forall k | k in desired :: WillRun(v, desired, k, instances, reachable)
               <==> Runs(w.consumers, desired[k]) || CanStart(w, desired[k], instances, reachable)
    ensures at < |keys| && outcome == BrokerFailed(desired[keys[at]].id)
    ensures !WillRun(v, desired, keys[at], instances, reachable)
    ensures forall j | 0 <= j < at :: WillRun(v, desired, keys[j], instances, reachable)
  {
    hide CanStart, Runs, WillRun, ToStart;
    var start := ToStart(w.consumers, w.triggers);
    ToStartFrom(w.consumers, w.triggers);
    at := PlaceOf(w.consumers, w.triggers, i);
    assert w.triggers[at] == desired[keys[at]] == start[i] && start[i] in start;
    forall j | 0 <= j < at ensures WillRun(v, desired, keys[j], instances, reachable) {
      assert w.triggers[j] == desired[keys[j]] && keys[j] in desired;
    }
  }

  lemma SameBrokers(v: State, w: State, t: Trigger, instances: map<string, MqInstance>, reachable: set<string>)
    requires v.brokers == w.brokers
    ensures CanStart(v, t, instances, reachable) <==> CanStart(w, t, instances, reachable)
  {
  }

  /** After the mutex section, what runs of the desired triggers is what ran unchanged before. */
  lemma SectionRuns(v: State, desired: map<string, Trigger>, keys: seq<string>)
    requires Inv(v) && (forall k :: k in keys <==> k in desired) && forall k :: k in desired ==> Key(desired[k]) == k
    ensures var w := Section(v, desired, keys);
            && w.brokers == v.brokers && w.triggers == Pick(desired, keys) && Wanted(w.consumers, desired)
            && forall k | k in desired ::
                 Runs(w.consumers, desired[k]) <==> k in v.consumers && v.consumers[k].trigger == desired[k]
  {
    SectionFacts(v, desired, keys);
  }

  /** Where the i-th trigger to be started stands in the list; those before it run or are to be started earlier. */
  lemma {:induction false} PlaceOf(consumers: map<string, Consumer>, ts: seq<Trigger>, i: nat) returns (at: nat)
    requires i < |ToStart(consumers, ts)|
    ensures at < |ts| && ts[at] == ToStart(consumers, ts)[i]
    ensures forall j | 0 <= j < at :: Runs(consumers, ts[j]) || ts[j] in ToStart(consumers, ts)[..i]
    decreases |ts|
  {
    var init, last := ts[..|ts| - 1], ts[|ts| - 1];
    var before := ToStart(consumers, init);
    if i < |before| {
      at := PlaceOf(consumers, init, i);
      assert ToStart(consumers, ts)[..i] == before[..i];
      forall j | 0 <= j < at ensures Runs(consumers, ts[j]) || ts[j] in ToStart(consumers, ts)[..i] {
        assert init[j] == ts[j];
      }
    } else {
      at := |ts| - 1;
      ToStartFrom(consumers, init);
      assert ToStart(consumers, ts)[..i] == before;
      forall j | 0 <= j < at ensures Runs(consumers, ts[j]) || ts[j] in ToStart(consumers, ts)[..i] {
        assert init[j] == ts[j];
      }
    }
  }

  // ----- what a configuration is refused for -----

  /** Each complaint means that its test failed and all earlier ones passed. */
  lemma ComplaintMeans(mqIds: set<string>, seen: set<string>, t: Trigger)
    ensures var c := Complaint(mqIds, seen, t);
            && (c == IdMissing <==> t.id == "")
            && (c == IdInvalid <==> t.id != "" && !Names.MqFixed(t.id))
            && (c == IdDuplicate <==> t.id != "" && Names.MqFixed(t.id) && t.id in seen)
    ensures var c := Complaint(mqIds, seen, t);
            var named := t.id != "" && Names.MqFixed(t.id) && t.id !in seen;
            && (c == KindUnsupported <==> named && t.kind != "mq")
            && (c == ConcurrencyNegative <==> named && t.kind == "mq" && t.maxConcurrency < 0)
            && (c == AttemptsNegative <==> named && t.kind == "mq" && t.maxConcurrency >= 0 > t.maxAttempts)
            && (c == PrefetchNegative
                <==> named && t.kind == "mq" && t.maxConcurrency >= 0 && t.maxAttempts >= 0 > t.prefetch)
            && (c == BackoffNegative
                <==> named && t.kind == "mq" && t.maxConcurrency >= 0 && t.maxAttempts >= 0 && t.prefetch >= 0
                     && t.retryBackoffMs < 0)
    ensures var c := Complaint(mqIds, seen, t);
            var counted := t.id != "" && Names.MqFixed(t.id) && t.id !in seen && t.kind == "mq"
                           && t.maxConcurrency >= 0 && t.maxAttempts >= 0 && t.prefetch >= 0 && t.retryBackoffMs >= 0;
            var complete := t.mqId != "" && t.queue != "" && t.func != "";
            && (c == EnabledIncomplete <==> counted && t.enabled && !complete)
            && (c == MqUnknown <==> counted && t.enabled && complete && t.mqId !in mqIds)
            && (c == FunctionInvalid
                <==> counted && t.enabled && complete && t.mqId in mqIds && !Names.DnsLabel(t.func))
  {
    Names.MqFixedPoints(t.id);
    hide Names.MqLabel, Names.MqFixed, Names.DnsLabel;
  }
}
