/** mqsvc/main.go and the trigger part of mqsvc/config.go: the configured triggers are validated and merged with the
    discovered ones, and the running consumers are made equal to them. */
module Reconcile {
  import Names
  import opened Options

  datatype Trigger = Trigger(
    id: string, kind: string, enabled: bool, mqId: string, queue: string, func: string,
    maxConcurrency: int, prefetch: int, maxAttempts: int, retryBackoffMs: int, dlq: string, broker: string)

  datatype MqInstance = MqInstance(mqId: string, broker: string, url: string)

  function Key(t: Trigger): string { Names.TriggerKey(t.mqId, t.func, t.id) }

  predicate SameTrigger(a: Trigger, b: Trigger) {
    && a.id == b.id && a.kind == b.kind && a.enabled == b.enabled && a.mqId == b.mqId && a.queue == b.queue
    && a.func == b.func && a.maxConcurrency == b.maxConcurrency && a.prefetch == b.prefetch
    && a.maxAttempts == b.maxAttempts && a.retryBackoffMs == b.retryBackoffMs && a.dlq == b.dlq && a.broker == b.broker
  }

  /** instanceByID: the last instance of an id wins. */
  function InstancesById(instances: seq<MqInstance>): map<string, MqInstance> {
    if instances == [] then map[]
    else InstancesById(instances[..|instances| - 1])[instances[|instances| - 1].mqId := instances[|instances| - 1]]
  }

  /** The consumer of a trigger runs with what is configured, and with defaults for what is not positive. */
  predicate RunsAs(r: Trigger, t: Trigger, inst: MqInstance) {
    && r.id == t.id && r.kind == t.kind && r.enabled == t.enabled && r.mqId == t.mqId && r.func == t.func
    && r.queue == t.queue && r.dlq == t.dlq && r.maxAttempts == t.maxAttempts && r.broker == inst.broker
    && r.maxConcurrency == (if t.maxConcurrency > 0 then t.maxConcurrency else 1)
    && r.prefetch == (if t.prefetch > 0 then t.prefetch else r.maxConcurrency)
    && r.retryBackoffMs == (if t.retryBackoffMs > 0 then t.retryBackoffMs else 1000)
  }

  function Normalize(t: Trigger, inst: MqInstance): (r: Trigger)
    ensures RunsAs(r, t, inst)
    ensures Key(r) == Key(t) && r.maxConcurrency >= 1 && r.prefetch >= 1 && r.retryBackoffMs >= 1
  {
    var maxConcurrency := if t.maxConcurrency <= 0 then 1 else t.maxConcurrency;
    t.(broker := inst.broker, maxConcurrency := maxConcurrency,
       prefetch := if t.prefetch <= 0 then maxConcurrency else t.prefetch,
       retryBackoffMs := if t.retryBackoffMs <= 0 then 1000 else t.retryBackoffMs)
  }

  // ----- sort.Strings -----

  predicate AtMost(a: string, b: string) {
    a == "" || (b != "" && (a[0] < b[0] || (a[0] == b[0] && AtMost(a[1..], b[1..]))))
  }

  lemma {:induction false} AtMostIsTotal(a: string, b: string)
    ensures AtMost(a, b) || AtMost(b, a)
  {
    if a != "" && b != "" { AtMostIsTotal(a[1..], b[1..]); }
  }

  lemma {:induction false} AtMostIsAntisymmetric(a: string, b: string)
    requires AtMost(a, b) && AtMost(b, a)
    ensures a == b
  {
    if a != "" {
      AtMostIsAntisymmetric(a[1..], b[1..]);
      assert a == [a[0]] + a[1..] && b == [b[0]] + b[1..];
    }
  }

  lemma {:induction false} AtMostIsTransitive(a: string, b: string, c: string)
    requires AtMost(a, b) && AtMost(b, c)
    ensures AtMost(a, c)
  {
    if a != "" && a[0] == b[0] == c[0] { AtMostIsTransitive(a[1..], b[1..], c[1..]); }
  }

  predicate Ordered(s: seq<string>) {
    forall i, j :: 0 <= i < j < |s| ==> AtMost(s[i], s[j])
  }

  function Insert(s: seq<string>, k: string): seq<string> {
    if s == [] then [k]
    else if AtMost(k, s[0]) then [k] + s
    else [s[0]] + Insert(s[1..], k)
  }

  function SortStrings(s: seq<string>): seq<string> {
    if s == [] then [] else Insert(SortStrings(s[..|s| - 1]), s[|s| - 1])
  }

  lemma {:induction false} InsertKeeps(s: seq<string>, k: string)
    ensures multiset(Insert(s, k)) == multiset(s) + multiset{k}
  {
    if s == [] {
    } else if AtMost(k, s[0]) {
    } else {
      InsertKeeps(s[1..], k);
      assert s == [s[0]] + s[1..];
    }
  }

  lemma {:induction false} InsertOrders(s: seq<string>, k: string)
    requires Ordered(s)
    ensures Ordered(Insert(s, k))
  {
    if s == [] {
    } else if AtMost(k, s[0]) {
      forall j | 0 <= j < |s| ensures AtMost(k, s[j]) {
        if j > 0 { AtMostIsTransitive(k, s[0], s[j]); }
      }
    } else {
      AtMostIsTotal(k, s[0]);
      InsertOrders(s[1..], k);
      InsertKeeps(s[1..], k);
      var rest := Insert(s[1..], k);
      forall j | 0 <= j < |rest| ensures AtMost(s[0], rest[j]) {
        assert rest[j] in multiset(rest);
        if rest[j] != k {
          assert rest[j] in s[1..];
        }
      }
    }
  }

  lemma {:induction false} SortStringsSorts(s: seq<string>)
    ensures Ordered(SortStrings(s)) && multiset(SortStrings(s)) == multiset(s)
  {
    if s != [] {
      SortStringsSorts(s[..|s| - 1]);
      InsertOrders(SortStrings(s[..|s| - 1]), s[|s| - 1]);
      InsertKeeps(SortStrings(s[..|s| - 1]), s[|s| - 1]);
      assert s == s[..|s| - 1] + [s[|s| - 1]];
    }
  }

  lemma SortedMember(s: seq<string>, k: string)
    ensures k in SortStrings(s) <==> k in s
  {
    SortStringsSorts(s);
    assert k in multiset(SortStrings(s)) <==> k in multiset(s);
  }

  // ----- mergeTriggers -----

  /** The last trigger of the list with this key. */
  function Last(ts: seq<Trigger>, key: string): (r: Option<Trigger>)
    ensures r.Some? ==> Key(r.value) == key
  {
    if ts == [] then None
    else if Key(ts[|ts| - 1]) == key then Some(ts[|ts| - 1])
    else Last(ts[..|ts| - 1], key)
  }

  /** A discovered trigger wins over the configured one with the same key. */
  function Winner(local: seq<Trigger>, remote: seq<Trigger>, key: string): Option<Trigger> {
    if Last(remote, key).Some? then Last(remote, key) else Last(local, key)
  }

  /** Strictly increasing keys, and exactly the winners. */
  ghost predicate IsMerge(local: seq<Trigger>, remote: seq<Trigger>, r: seq<Trigger>) {
    && (forall i, j :: 0 <= i < j < |r| ==> AtMost(Key(r[i]), Key(r[j])) && Key(r[i]) != Key(r[j]))
    && (forall t :: t in r <==> Winner(local, remote, Key(t)) == Some(t))
  }

  lemma LastSnoc(ts: seq<Trigger>, i: nat, key: string)
    requires i < |ts|
    ensures Last(ts[..i + 1], key) == if Key(ts[i]) == key then Some(ts[i]) else Last(ts[..i], key)
  {
    assert ts[..i + 1][..i] == ts[..i];
  }

  method MergeTriggers(local: seq<Trigger>, remote: seq<Trigger>) returns (triggers: seq<Trigger>)
    ensures IsMerge(local, remote, triggers)
  {
    var merged: map<string, Trigger> := map[];
    for i := 0 to |local|
      invariant forall key :: Found(merged, key) == Last(local[..i], key)
    {
      assert local[..i + 1][..i] == local[..i];
      merged := merged[Key(local[i]) := local[i]];
    }
    assert local[..|local|] == local;
    for i := 0 to |remote|
      invariant forall key :: Found(merged, key) == Winner(local, remote[..i], key)
    {
      ghost var before := merged;
      merged := merged[Key(remote[i]) := remote[i]];
      forall key ensures Found(merged, key) == Winner(local, remote[..i + 1], key) {
        LastSnoc(remote, i, key);
        assert Found(before, key) == Winner(local, remote[..i], key);
      }
    }
    assert remote[..|remote|] == remote;
    var keys := KeysOf(merged);
    triggers := [];
    for i := 0 to |keys|
      invariant |triggers| == i && forall j :: 0 <= j < i ==> triggers[j] == merged[keys[j]]
    {
      triggers := triggers + [merged[keys[i]]];
    }
    forall i | 0 <= i < |triggers| ensures Key(triggers[i]) == keys[i] {
      assert Found(merged, keys[i]) == Winner(local, remote, keys[i]);
    }
    forall t ensures t in triggers <==> Winner(local, remote, Key(t)) == Some(t) {
      assert Found(merged, Key(t)) == Winner(local, remote, Key(t));
      if Winner(local, remote, Key(t)) == Some(t) {
        assert Key(t) in keys;
      }
    }
  }

  function Found(m: map<string, Trigger>, key: string): Option<Trigger> {
    if key in m then Some(m[key]) else None
  }

  /** The keys of a map, in the order in which sort.Strings puts them. */
  method KeysOf(m: map<string, Trigger>) returns (keys: seq<string>)
    ensures Ordered(keys) && (forall k :: k in keys <==> k in m)
    ensures forall i, j :: 0 <= i < j < |keys| ==> keys[i] != keys[j]
  {
    var rest := m.Keys;
    var found: seq<string> := [];
    while rest != {}
      invariant rest <= m.Keys && (forall k :: k in found <==> k in m.Keys - rest)
      invariant forall i, j :: 0 <= i < j < |found| ==> found[i] != found[j]
      decreases |rest|
    {
      var k :| k in rest;
      rest := rest - {k};
      assert k !in found;
      found := found + [k];
    }
    keys := SortStrings(found);
    SortStringsSorts(found);
    forall k ensures k in keys <==> k in found {
      SortedMember(found, k);
    }
    SameMultisetDistinct(found, keys);
  }

  lemma SameMultisetDistinct(a: seq<string>, b: seq<string>)
    requires multiset(a) == multiset(b) && forall i, j :: 0 <= i < j < |a| ==> a[i] != a[j]
    ensures forall i, j :: 0 <= i < j < |b| ==> b[i] != b[j]
  {
    forall i, j | 0 <= i < j < |b| ensures b[i] != b[j] {
      if b[i] == b[j] {
        Twice(b, i, j);
        Once(a, b[i]);
      }
    }
  }

  lemma Twice(s: seq<string>, i: nat, j: nat)
    requires i < j < |s| && s[i] == s[j]
    ensures multiset(s)[s[i]] >= 2
  {
    assert s == s[..j] + s[j..];
    assert s[..j][i] == s[i] && s[j..][0] == s[j];
    assert s[i] in multiset(s[..j]) && s[i] in multiset(s[j..]);
  }

  lemma {:induction false} Once(s: seq<string>, k: string)
    requires forall i, j :: 0 <= i < j < |s| ==> s[i] != s[j]
    ensures multiset(s)[k] <= 1
  {
    if s != [] {
      var init, x := s[..|s| - 1], s[|s| - 1];
      assert s == init + [x];
      Once(init, k);
      if k == x { assert k !in init; }
    }
  }

  /** Only one sequence is a merge of two lists. */
  lemma {:induction false} MergeIsUnique(local: seq<Trigger>, remote: seq<Trigger>, r: seq<Trigger>, q: seq<Trigger>,
      n: nat)
    requires IsMerge(local, remote, r) && IsMerge(local, remote, q) && n <= |r|
    ensures n <= |q| && r[..n] == q[..n]
  {
    if n > 0 {
      MergeIsUnique(local, remote, r, q, n - 1);
      MergeNext(r, q, n - 1);
      assert r[..n] == r[..n - 1] + [r[n - 1]];
    }
  }

  lemma MergeNext(r: seq<Trigger>, q: seq<Trigger>, m: nat)
    requires m < |r| && m <= |q| && r[..m] == q[..m]
    requires forall i, j :: 0 <= i < j < |r| ==> AtMost(Key(r[i]), Key(r[j])) && Key(r[i]) != Key(r[j])
    requires forall i, j :: 0 <= i < j < |q| ==> AtMost(Key(q[i]), Key(q[j])) && Key(q[i]) != Key(q[j])
    requires forall t :: t in r <==> t in q
    ensures m < |q| && r[m] == q[m]
  {
    forall k | 0 <= k < m ensures r[k] == q[k] {
      assert r[..m][k] == q[..m][k];
    }
    assert r[m] in q;
    var a :| 0 <= a < |q| && q[a] == r[m];
    assert a >= m && q[m] in r;
    var b :| 0 <= b < |r| && r[b] == q[m];
    if a > m && b > m { AtMostIsAntisymmetric(Key(r[m]), Key(q[m])); }
  }

  // ----- reconcileTriggers as a function of the service's state -----

  /** A consumer and the identity of its context. */
  datatype Consumer = Consumer(trigger: Trigger, token: nat)

  datatype State = State(consumers: map<string, Consumer>, triggers: seq<Trigger>, brokers: set<string>,
                         cancelled: set<nat>, nextToken: nat)

  datatype Outcome = Ok | UnknownMq(id: string) | BrokerFailed(id: string) | Replacing(id: string)

  /** The first enabled trigger whose mq_id is unknown. */
  function Unknown(instances: map<string, MqInstance>, ts: seq<Trigger>): (r: Option<Trigger>)
    ensures r == None <==> forall t :: t in ts && t.enabled ==> t.mqId in instances
  {
    if ts == [] then None
    else
      var init := ts[..|ts| - 1];
      var last := ts[|ts| - 1];
      assert ts == init + [last];
      if Unknown(instances, init).Some? then Unknown(instances, init)
      else if last.enabled && last.mqId !in instances then Some(last)
      else None
  }

  /** The enabled triggers, normalised, in input order. */
  function Enabled(instances: map<string, MqInstance>, ts: seq<Trigger>): (r: seq<Trigger>)
    requires Unknown(instances, ts) == None
  {
    if ts == [] then []
    else
      var last := ts[|ts| - 1];
      Enabled(instances, ts[..|ts| - 1]) + if last.enabled then [Normalize(last, instances[last.mqId])] else []
  }

  function KeySeq(ts: seq<Trigger>): seq<string> {
    seq(|ts|, i requires 0 <= i < |ts| => Key(ts[i]))
  }

  /** One trigger for each key, the last one. */
  function ByKey(ts: seq<Trigger>): (m: map<string, Trigger>)
    ensures forall k :: k in m <==> k in KeySeq(ts)
    ensures forall k :: k in m ==> Key(m[k]) == k && m[k] in ts
  {
    if ts == [] then map[]
    else
      var init := ts[..|ts| - 1];
      assert KeySeq(ts) == KeySeq(init) + [Key(ts[|ts| - 1])];
      ByKey(init)[Key(ts[|ts| - 1]) := ts[|ts| - 1]]
  }

  predicate Runs(consumers: map<string, Consumer>, t: Trigger) {
    Key(t) in consumers && SameTrigger(consumers[Key(t)].trigger, t)
  }

  predicate Stays(consumers: map<string, Consumer>, desired: map<string, Trigger>, k: string) {
    k in consumers && k in desired && SameTrigger(consumers[k].trigger, desired[k])
  }

  /** The consumers that stay. */
  function Kept(consumers: map<string, Consumer>, desired: map<string, Trigger>): map<string, Consumer> {
    map k | k in consumers && Stays(consumers, desired, k) :: consumers[k]
  }

  function Tokens(consumers: map<string, Consumer>): set<nat> {
    set k | k in consumers :: consumers[k].token
  }

  function Pick(desired: map<string, Trigger>, keys: seq<string>): seq<Trigger>
    requires forall k :: k in keys ==> k in desired
  {
    seq(|keys|, i requires 0 <= i < |keys| => desired[keys[i]])
  }

  /** The triggers that have no consumer yet. */
  function ToStart(consumers: map<string, Consumer>, ts: seq<Trigger>): seq<Trigger> {
    if ts == [] then []
    else
      var t := ts[|ts| - 1];
      ToStart(consumers, ts[..|ts| - 1]) + if Runs(consumers, t) then [] else [t]
  }

  /** The mutex section of reconcileTriggers. */
  function Section(v: State, desired: map<string, Trigger>, keys: seq<string>): State
    requires forall k :: k in keys ==> k in desired
  {
    var kept := Kept(v.consumers, desired);
    v.(consumers := kept, triggers := Pick(desired, keys),
       cancelled := v.cancelled + (Tokens(v.consumers - kept.Keys)))
  }

  /** startConsumer: `reachable` are the instances that can be dialled. */
  function StartOne(v: State, t: Trigger, instances: map<string, MqInstance>, reachable: set<string>): (State, Outcome)
    requires t.mqId in instances
  {
    if t.mqId !in v.brokers && (instances[t.mqId].broker != "rabbitmq" || t.mqId !in reachable)
    then (v, BrokerFailed(t.id))
    else
      var w := v.(brokers := v.brokers + {t.mqId});
      if Key(t) in v.consumers then (w, if SameTrigger(v.consumers[Key(t)].trigger, t) then Ok else Replacing(t.id))
      else (w.(consumers := v.consumers[Key(t) := Consumer(t, v.nextToken)], nextToken := v.nextToken + 1), Ok)
  }

  function StartAll(v: State, ts: seq<Trigger>, instances: map<string, MqInstance>, reachable: set<string>)
      : (State, Outcome)
    requires forall t :: t in ts ==> t.mqId in instances
    decreases |ts|
  {
    if ts == [] then (v, Ok)
    else
      var (w, outcome) := StartOne(v, ts[0], instances, reachable);
      if outcome.Ok? then StartAll(w, ts[1..], instances, reachable) else (w, outcome)
  }

  function Desired(instances: map<string, MqInstance>, ts: seq<Trigger>): map<string, Trigger>
    requires Unknown(instances, ts) == None
  {
    ByKey(Enabled(instances, ts))
  }

  function SortedKeys(instances: map<string, MqInstance>, ts: seq<Trigger>): (keys: seq<string>)
    requires Unknown(instances, ts) == None
    ensures forall k :: k in keys <==> k in Desired(instances, ts)
  {
    var keys := KeySeq(Enabled(instances, ts));
    assert forall k :: k in SortStrings(keys) <==> k in keys by {
      forall k ensures k in SortStrings(keys) <==> k in keys { SortedMember(keys, k); }
    }
    SortStrings(keys)
  }

  /** reconcileTriggers, when nothing else happens in between. */
  function Reconciled(v: State, instances: map<string, MqInstance>, ts: seq<Trigger>, reachable: set<string>)
      : (State, Outcome)
  {
    if Unknown(instances, ts).Some? then (v, UnknownMq(Unknown(instances, ts).value.id))
    else
      var w := Section(v, Desired(instances, ts), SortedKeys(instances, ts));
      StartKnown(v, instances, ts);
      StartAll(w, ToStart(w.consumers, w.triggers), instances, reachable)
  }

  lemma StartKnown(v: State, instances: map<string, MqInstance>, ts: seq<Trigger>)
    requires Unknown(instances, ts) == None
    ensures var w := Section(v, Desired(instances, ts), SortedKeys(instances, ts));
            forall t :: t in ToStart(w.consumers, w.triggers) ==> t.mqId in instances
  {
    var w := Section(v, Desired(instances, ts), SortedKeys(instances, ts));
    EnabledKnown(instances, ts);
    ToStartFrom(w.consumers, w.triggers);
  }

  lemma {:induction false} EnabledKnown(instances: map<string, MqInstance>, ts: seq<Trigger>)
    requires Unknown(instances, ts) == None
    ensures forall t :: t in Enabled(instances, ts) ==> t.mqId in instances
  {
    if ts != [] {
      EnabledKnown(instances, ts[..|ts| - 1]);
      assert ts[|ts| - 1] in ts;
    }
  }

  lemma {:induction false} ToStartFrom(consumers: map<string, Consumer>, ts: seq<Trigger>)
    ensures forall t :: t in ToStart(consumers, ts) <==> t in ts && !Runs(consumers, t)
  {
    if ts != [] {
      ToStartFrom(consumers, ts[..|ts| - 1]);
      assert ts == ts[..|ts| - 1] + [ts[|ts| - 1]];
    }
  }

  /** Consumers under their own keys, each with a context of its own that is not cancelled. */
  ghost predicate Inv(v: State) {
    && (forall k :: k in v.consumers ==> Key(v.consumers[k].trigger) == k)
    && (forall k :: k in v.consumers ==> v.consumers[k].token < v.nextToken && v.consumers[k].token !in v.cancelled)
    && (forall k, l :: k in v.consumers && l in v.consumers && v.consumers[k].token == v.consumers[l].token ==> k == l)
    && (forall c :: c in v.cancelled ==> c < v.nextToken)
  }

  /** The consumers are exactly the desired triggers. */
  predicate Matches(consumers: map<string, Consumer>, desired: map<string, Trigger>) {
    consumers.Keys == desired.Keys && forall k :: k in desired ==> consumers[k].trigger == desired[k]
  }

  /** Everything in `consumers` is desired. */
  predicate Wanted(consumers: map<string, Consumer>, desired: map<string, Trigger>) {
    forall k :: k in consumers ==> k in desired && consumers[k].trigger == desired[k]
  }

  /** A started consumer is new; every other one is as before. */
  ghost predicate OnlyAdds(v: State, w: State) {
    && w.cancelled == v.cancelled && w.triggers == v.triggers && v.nextToken <= w.nextToken && v.brokers <= w.brokers
    && (forall k :: k in v.consumers ==> k in w.consumers && w.consumers[k] == v.consumers[k])
    && (forall k :: k in w.consumers && k !in v.consumers ==> v.nextToken <= w.consumers[k].token < w.nextToken)
  }

  lemma SectionFacts(v: State, desired: map<string, Trigger>, keys: seq<string>)
    requires Inv(v) && (forall k :: k in keys ==> k in desired) && (forall k :: k in desired ==> Key(desired[k]) == k)
    ensures var w := Section(v, desired, keys);
            Inv(w) && Wanted(w.consumers, desired)
            && (forall t :: t in w.triggers ==> Key(t) in desired && desired[Key(t)] == t)
  {
    var w := Section(v, desired, keys);
    forall t | t in w.triggers ensures Key(t) in desired && desired[Key(t)] == t {
      var i :| 0 <= i < |w.triggers| && w.triggers[i] == t;
      assert t == desired[keys[i]] && keys[i] in keys;
    }
    SectionTokens(v, desired, keys);
  }

  lemma SectionTokens(v: State, desired: map<string, Trigger>, keys: seq<string>)
    requires Inv(v) && (forall k :: k in keys ==> k in desired)
    ensures var w := Section(v, desired, keys);
            forall k :: k in w.consumers ==> w.consumers[k].token !in w.cancelled
  {
    var w := Section(v, desired, keys);
    forall k | k in w.consumers ensures w.consumers[k].token !in w.cancelled {
      assert w.consumers[k] == v.consumers[k];
    }
  }

  lemma StartOneInv(v: State, t: Trigger, instances: map<string, MqInstance>, reachable: set<string>)
    requires Inv(v) && t.mqId in instances
    ensures Inv(StartOne(v, t, instances, reachable).0)
  {
  }

  lemma StartOneFacts(v: State, t: Trigger, instances: map<string, MqInstance>, reachable: set<string>,
      desired: map<string, Trigger>)
    requires Inv(v) && Wanted(v.consumers, desired) && t.mqId in instances && Key(t) in desired && desired[Key(t)] == t
    ensures var (w, outcome) := StartOne(v, t, instances, reachable);
            && Inv(w) && Wanted(w.consumers, desired) && OnlyAdds(v, w)
            && (outcome.Ok? || outcome.BrokerFailed?) && (outcome.Ok? ==> Runs(w.consumers, t))
            && (outcome.BrokerFailed? ==> t.mqId !in v.brokers)
  {
    hide Inv;
    StartOneInv(v, t, instances, reachable);
  }

  lemma {:induction false} StartAllFacts(v: State, ts: seq<Trigger>, instances: map<string, MqInstance>,
                                         reachable: set<string>, desired: map<string, Trigger>)
    requires Inv(v) && Wanted(v.consumers, desired)
    requires forall t :: t in ts ==> t.mqId in instances && Key(t) in desired && desired[Key(t)] == t
    ensures var (w, outcome) := StartAll(v, ts, instances, reachable);
            && Inv(w) && Wanted(w.consumers, desired) && OnlyAdds(v, w)
            && (outcome.Ok? || outcome.BrokerFailed?)
            && (outcome.Ok? ==> forall t :: t in ts ==> Runs(w.consumers, t))
    decreases |ts|
  {
    hide *;
    if ts == [] {
      NothingStarted(v, instances, reachable);
    } else {
      StartAllTurn(v, ts, instances, reachable);
      StartOneFacts(v, ts[0], instances, reachable, desired);
      var (u, first) := StartOne(v, ts[0], instances, reachable);
      if first.Ok? {
        StartAllFacts(u, ts[1..], instances, reachable, desired);
        var (w, outcome) := StartAll(u, ts[1..], instances, reachable);
        OnlyAddsTwice(v, u, w);
        RunsOn(u, w, ts[0]);
        assert ts == [ts[0]] + ts[1..];
      }
    }
  }

  lemma NothingStarted(v: State, instances: map<string, MqInstance>, reachable: set<string>)
    ensures StartAll(v, [], instances, reachable) == (v, Ok) && OnlyAdds(v, v)
  {
  }

  lemma StartAllTurn(v: State, ts: seq<Trigger>, instances: map<string, MqInstance>, reachable: set<string>)
    requires ts != [] && forall t :: t in ts ==> t.mqId in instances
    ensures var (w, outcome) := StartOne(v, ts[0], instances, reachable);
            StartAll(v, ts, instances, reachable)
            == if outcome.Ok? then StartAll(w, ts[1..], instances, reachable) else (w, outcome)
  {
    hide StartOne;
  }

  lemma OnlyAddsTwice(v: State, u: State, w: State)
    requires OnlyAdds(v, u) && OnlyAdds(u, w)
    ensures OnlyAdds(v, w)
  {
  }

  lemma RunsOn(v: State, w: State, t: Trigger)
    requires OnlyAdds(v, w) && Runs(v.consumers, t)
    ensures Runs(w.consumers, t)
  {
  }

  /** The consumers whose trigger changed or vanished. */
  function Outdated(v: State, desired: map<string, Trigger>): set<nat> {
    Tokens(v.consumers - Kept(v.consumers, desired).Keys)
  }

  /** When nil is returned the consumers are exactly the normalised enabled triggers; exactly the changed or vanished
      ones were cancelled and the unchanged ones run on.  When a broker fails, what runs is still only desired. */
  lemma ReconcileReaches(v: State, instances: map<string, MqInstance>, ts: seq<Trigger>, reachable: set<string>)
    requires Inv(v) && Unknown(instances, ts) == None
    ensures var desired := Desired(instances, ts); var (w, outcome) := Reconciled(v, instances, ts, reachable);
            && Inv(w) && (outcome.Ok? || outcome.BrokerFailed?)
            && Wanted(w.consumers, desired) && (outcome.Ok? ==> Matches(w.consumers, desired))
            && w.cancelled == v.cancelled + Outdated(v, desired)
            && (forall k :: k in v.consumers && k in desired && v.consumers[k].trigger == desired[k]
                            ==> k in w.consumers && w.consumers[k] == v.consumers[k])
            && w.triggers == Pick(desired, SortedKeys(instances, ts))
  {
    var desired, keys := Desired(instances, ts), SortedKeys(instances, ts);
    var u := Section(v, desired, keys);
    SectionFacts(v, desired, keys);
    EnabledKnown(instances, ts);
    ToStartFrom(u.consumers, u.triggers);
    forall t | t in u.triggers ensures t.mqId in instances {
      assert t in Enabled(instances, ts);
    }
    StartAllFacts(u, ToStart(u.consumers, u.triggers), instances, reachable, desired);
    var (w, outcome) := Reconciled(v, instances, ts, reachable);
    if outcome.Ok? {
      forall k | k in desired ensures k in w.consumers {
        AllStarted(u, w, desired, keys, k);
      }
    }
  }

  lemma AllStarted(u: State, w: State, desired: map<string, Trigger>, keys: seq<string>, k: string)
    requires (forall k :: k in keys <==> k in desired) && (forall k :: k in desired ==> Key(desired[k]) == k)
    requires u.triggers == Pick(desired, keys) && OnlyAdds(u, w) && k in desired
    requires forall t :: t in ToStart(u.consumers, u.triggers) ==> Runs(w.consumers, t)
    ensures k in w.consumers
  {
    var i :| 0 <= i < |keys| && keys[i] == k;
    var t := desired[k];
    assert u.triggers[i] == t;
    ToStartFrom(u.consumers, u.triggers);
    if !Runs(u.consumers, t) {
      assert t in ToStart(u.consumers, u.triggers);
    }
  }

  /** An unknown mq_id is reported before anything changes. */
  lemma UnknownChangesNothing(v: State, instances: map<string, MqInstance>, ts: seq<Trigger>, reachable: set<string>)
    requires Inv(v)
    ensures Reconciled(v, instances, ts, reachable).1.UnknownMq?
            <==> exists t :: t in ts && t.enabled && t.mqId !in instances
    ensures Reconciled(v, instances, ts, reachable).1.UnknownMq? ==> Reconciled(v, instances, ts, reachable).0 == v
  {
    if Unknown(instances, ts) == None {
      ReconcileReaches(v, instances, ts, reachable);
    }
  }

  /** Repeating a call that returned nil starts and cancels nothing, even if no broker can be reached any more. */
  lemma ReconcileAgain(v: State, instances: map<string, MqInstance>, ts: seq<Trigger>, reachable: set<string>,
      reachable': set<string>)
    requires Inv(v) && Reconciled(v, instances, ts, reachable).1.Ok?
    ensures var w := Reconciled(v, instances, ts, reachable).0;
            Reconciled(w, instances, ts, reachable') == (w, Ok)
  {
    ReconcileReaches(v, instances, ts, reachable);
    var w := Reconciled(v, instances, ts, reachable).0;
    hide Inv, Wanted, Unknown, Desired, SortedKeys, Key, Section, ToStart, Matches, Kept;
    NothingLeft(w, Desired(instances, ts), SortedKeys(instances, ts));
  }

  lemma NothingLeft(w: State, desired: map<string, Trigger>, keys: seq<string>)
    requires Matches(w.consumers, desired) && (forall k :: k in keys ==> k in desired && Key(desired[k]) == k)
    requires w.triggers == Pick(desired, keys)
    ensures Section(w, desired, keys) == w && ToStart(w.consumers, w.triggers) == []
  {
    assert Kept(w.consumers, desired) == w.consumers;
    assert Tokens(w.consumers - w.consumers.Keys) == {};
    forall t | t in w.triggers ensures Runs(w.consumers, t) {
      var i :| 0 <= i < |w.triggers| && w.triggers[i] == t;
      assert keys[i] in keys;
    }
    NothingToStart(w.consumers, w.triggers);
  }

  lemma NothingToStart(consumers: map<string, Consumer>, ts: seq<Trigger>)
    requires forall t :: t in ts ==> Runs(consumers, t)
    ensures ToStart(consumers, ts) == []
  {
    ToStartFrom(consumers, ts);
    if ToStart(consumers, ts) != [] {
      assert ToStart(consumers, ts)[0] in ToStart(consumers, ts);
    }
  }

  // ----- the service itself -----

  lemma {:induction false} UnknownFirst(instances: map<string, MqInstance>, ts: seq<Trigger>, i: nat)
    requires i <= |ts| && Unknown(instances, ts[..i]).Some?
    ensures Unknown(instances, ts) == Unknown(instances, ts[..i])
    decreases |ts|
  {
    if i < |ts| {
      assert ts[..|ts| - 1][..i] == ts[..i];
      UnknownFirst(instances, ts[..|ts| - 1], i);
    } else {
      assert ts[..i] == ts;
    }
  }

  lemma {:induction false} StartMore(consumers: map<string, Consumer>, ts: seq<Trigger>, t: Trigger)
    ensures ToStart(consumers, ts + [t]) == ToStart(consumers, ts) + if Runs(consumers, t) then [] else [t]
  {
    assert (ts + [t])[..|ts|] == ts;
  }

  class Service {
    const instances: seq<MqInstance>
    var consumers: map<string, Consumer>
    var triggers: seq<Trigger>
    var brokers: set<string>
    var cancelled: set<nat>
    var nextToken: nat

    constructor (instances: seq<MqInstance>)
      ensures this.instances == instances && View() == State(map[], [], {}, {}, 0) && Inv(View())
    {
      this.instances := instances;
      consumers, triggers, brokers, cancelled, nextToken := map[], [], {}, {}, 0;
    }

    function View(): State
      reads this
    {
      State(consumers, triggers, brokers, cancelled, nextToken)
    }

    /** brokerFor: a broker is created on first use. */
    method BrokerFor(inst: MqInstance, reachable: set<string>) returns (ok: bool)
      modifies this`brokers
      ensures ok <==> inst.mqId in old(brokers) || (inst.broker == "rabbitmq" && inst.mqId in reachable)
      ensures brokers == if ok then old(brokers) + {inst.mqId} else old(brokers)
    {
      if inst.mqId in brokers {
        return true;
      }
      if inst.broker != "rabbitmq" || inst.mqId !in reachable {
        return false;
      }
      brokers := brokers + {inst.mqId};
      ok := true;
    }

    method StartConsumer(t: Trigger, reachable: set<string>) returns (outcome: Outcome)
      requires t.mqId in InstancesById(instances)
      modifies this
      ensures (View(), outcome) == StartOne(old(View()), t, InstancesById(instances), reachable)
    {
      ById(instances, t.mqId);
      var ok := BrokerFor(InstancesById(instances)[t.mqId], reachable);
      if !ok {
        return BrokerFailed(t.id);
      }
      if Key(t) in consumers {
        return if SameTrigger(consumers[Key(t)].trigger, t) then Ok else Replacing(t.id);
      }
      consumers := consumers[Key(t) := Consumer(t, nextToken)];
      nextToken := nextToken + 1;
      outcome := Ok;
    }

    /** The first loop: what is desired, or the first trigger whose mq_id is unknown. */
    method Collect(ts: seq<Trigger>) returns (unknown: Option<Trigger>, desired: map<string, Trigger>,
        keys: seq<string>)
      ensures unknown == Unknown(InstancesById(instances), ts)
      ensures unknown == None ==>
          desired == Desired(InstancesById(instances), ts) && keys == SortedKeys(InstancesById(instances), ts)
    {
      hide Unknown, Enabled, ByKey, KeySeq, SortStrings;
      var byId := InstancesById(instances);
      desired, keys := map[], [];
      NothingCollected(byId, ts);
      for i := 0 to |ts|
        invariant Unknown(byId, ts[..i]) == None
        invariant desired == ByKey(Enabled(byId, ts[..i])) && keys == KeySeq(Enabled(byId, ts[..i]))
      {
        CollectedOne(byId, ts, i);
        if !ts[i].enabled {
          continue;
        }
        if ts[i].mqId !in byId {
          UnknownFirst(byId, ts, i + 1);
          return Some(ts[i]), desired, keys;
        }
        var trigger := Normalize(ts[i], byId[ts[i].mqId]);
        ByKeySnoc(Enabled(byId, ts[..i]), trigger);
        desired := desired[Key(trigger) := trigger];
        keys := keys + [Key(trigger)];
      }
      assert ts[..|ts|] == ts;
      unknown := None;
      keys := SortStrings(keys);
    }

    /** Under the mutex: cancels and removes what is no longer desired. */
    method Drop(desired: map<string, Trigger>)
      modifies this`consumers, this`cancelled
      ensures consumers == Kept(old(consumers), desired)
      ensures cancelled == old(cancelled) + Tokens(old(consumers) - consumers.Keys)
    {
      hide Tokens, SameTrigger, Kept;
      var rest := consumers.Keys;
      NoTokens(consumers);
      while rest != {}
        invariant rest <= old(consumers).Keys && rest <= consumers.Keys <= old(consumers).Keys
        invariant forall k :: k in consumers ==> consumers[k] == old(consumers)[k]
        invariant forall k :: k in old(consumers).Keys - rest ==>
            (k in consumers <==> Stays(old(consumers), desired, k))
        invariant cancelled == old(cancelled) + Tokens(old(consumers) - consumers.Keys)
        decreases |rest|
      {
        var key :| key in rest;
        rest := rest - {key};
        if key !in desired || !SameTrigger(consumers[key].trigger, desired[key]) {
          TokensMore(old(consumers), consumers.Keys, key);
          cancelled := cancelled + {consumers[key].token};
          consumers := consumers - {key};
        }
      }
      KeptExactly(old(consumers), desired, consumers);
    }

    /** The mutex section; `start` are the triggers left to start. */
    method Replace(desired: map<string, Trigger>, keys: seq<string>) returns (start: seq<Trigger>)
      requires forall k :: k in keys ==> k in desired && Key(desired[k]) == k
      modifies this
      ensures View() == Section(old(View()), desired, keys) && start == ToStart(consumers, triggers)
    {
      Drop(desired);
      start, triggers := [], [];
      for i := 0 to |keys|
        modifies this`triggers
        invariant triggers == Pick(desired, keys[..i]) && start == ToStart(consumers, triggers)
      {
        var trigger := desired[keys[i]];
        StartMore(consumers, triggers, trigger);
        if !(keys[i] in consumers) || !SameTrigger(consumers[keys[i]].trigger, trigger) {
          start := start + [trigger];
        }
        triggers := triggers + [trigger];
      }
      assert keys[..|keys|] == keys;
    }

    method ReconcileTriggers(ts: seq<Trigger>, reachable: set<string>) returns (outcome: Outcome)
      modifies this
      ensures (View(), outcome) == Reconciled(old(View()), InstancesById(instances), ts, reachable)
    {
      hide Section, ToStart, StartAll, Unknown, Key;
      ghost var byId := InstancesById(instances);
      var unknown, desired, keys := Collect(ts);
      if unknown.Some? {
        return UnknownMq(unknown.value.id);
      }
      StartKnown(View(), byId, ts);
      var start := Replace(desired, keys);
      outcome := Start(start, reachable);
    }

    /** After the mutex is released: the consumers are started one by one, up to the first failure. */
    method Start(start: seq<Trigger>, reachable: set<string>) returns (outcome: Outcome)
      requires forall t :: t in start ==> t.mqId in InstancesById(instances)
      modifies this
      ensures (View(), outcome) == StartAll(old(View()), start, InstancesById(instances), reachable)
    {
      ghost var byId := InstancesById(instances);
      for i := 0 to |start|
        invariant StartAll(View(), start[i..], byId, reachable) == StartAll(old(View()), start, byId, reachable)
      {
        assert start[i..][0] == start[i] && start[i..][1..] == start[i + 1..];
        outcome := StartConsumer(start[i], reachable);
        if !outcome.Ok? {
          return;
        }
      }
      outcome := Ok;
    }

    /** syncTriggers: without the gateway's answer the configured triggers are used, if there are any. */
    method SyncTriggers(local: seq<Trigger>, discovered: Option<seq<Trigger>>, reachable: set<string>)
      returns (synced: bool, ts: seq<Trigger>, outcome: Outcome)
      modifies this
      ensures synced <==> discovered.Some? || local != []
      ensures !synced ==> View() == old(View())
      ensures synced ==> (if discovered.Some? then IsMerge(local, discovered.value, ts) else ts == local)
      ensures synced ==> (View(), outcome) == Reconciled(old(View()), InstancesById(instances), ts, reachable)
    {
      ts := local;
      if discovered.Some? {
        ts := MergeTriggers(local, discovered.value);
      } else if local == [] {
        return false, ts, Ok;
      }
      synced := true;
      outcome := ReconcileTriggers(ts, reachable);
    }

    /** The end of a consumer's goroutine. */
    method ConsumerExited(t: Trigger)
      modifies this`consumers
      ensures consumers == Exited(old(consumers), t)
    {
      if Key(t) in consumers && SameTrigger(consumers[Key(t)].trigger, t) {
        consumers := consumers - {Key(t)};
      }
    }
  }

  lemma {:induction false} ById(instances: seq<MqInstance>, id: string)
    requires id in InstancesById(instances)
    ensures InstancesById(instances)[id].mqId == id
  {
    if instances[|instances| - 1].mqId != id { ById(instances[..|instances| - 1], id); }
  }

  lemma NothingCollected(instances: map<string, MqInstance>, ts: seq<Trigger>)
    ensures Unknown(instances, ts[..0]) == None
    ensures ByKey(Enabled(instances, ts[..0])) == map[] && KeySeq(Enabled(instances, ts[..0])) == []
  {
  }

  lemma CollectedOne(instances: map<string, MqInstance>, ts: seq<Trigger>, i: nat)
    requires i < |ts| && Unknown(instances, ts[..i]) == None
    ensures Unknown(instances, ts[..i + 1]) == if ts[i].enabled && ts[i].mqId !in instances then Some(ts[i]) else None
    ensures Unknown(instances, ts[..i + 1]) == None
            ==> Enabled(instances, ts[..i + 1])
                == if ts[i].enabled then Enabled(instances, ts[..i]) + [Normalize(ts[i], instances[ts[i].mqId])]
                   else Enabled(instances, ts[..i])
  {
    hide Normalize;
    assert ts[..i + 1][..i] == ts[..i];
  }

  lemma ByKeySnoc(ts: seq<Trigger>, t: Trigger)
    ensures ByKey(ts + [t]) == ByKey(ts)[Key(t) := t] && KeySeq(ts + [t]) == KeySeq(ts) + [Key(t)]
  {
    assert (ts + [t])[..|ts|] == ts;
  }

  lemma KeptExactly(all: map<string, Consumer>, desired: map<string, Trigger>, r: map<string, Consumer>)
    requires r.Keys <= all.Keys && forall k :: k in r ==> r[k] == all[k]
    requires forall k :: k in all ==> (k in r <==> Stays(all, desired, k))
    ensures r == Kept(all, desired)
  {
  }

  lemma NoTokens(all: map<string, Consumer>)
    ensures Tokens(all - all.Keys) == {}
  {
  }

  lemma TokensMore(all: map<string, Consumer>, stay: set<string>, key: string)
    requires key in all && key in stay
    ensures Tokens(all - (stay - {key})) == Tokens(all - stay) + {all[key].token}
  {
    var fewer, more := all - stay, all - (stay - {key});
    forall token ensures token in Tokens(more) <==> token in Tokens(fewer) + {all[key].token} {
      if token in Tokens(more) {
        var k :| k in more && more[k].token == token;
        assert k == key || k in fewer;
      }
      if token in Tokens(fewer) {
        var k :| k in fewer && fewer[k].token == token;
        assert k in more;
      }
      assert key in more;
    }
  }

  // ----- the limit: the end of a consumer compares triggers, not contexts -----

  function Exited(consumers: map<string, Consumer>, t: Trigger): map<string, Consumer> {
    if Runs(consumers, t) then consumers - {Key(t)} else consumers
  }

  /** The end of the consumer `c` leaves every other consumer in the map exactly if no later consumer runs for an
      equal trigger. */
  lemma ExitSparesOthers(consumers: map<string, Consumer>, c: Consumer)
    ensures (forall k :: k in consumers && consumers[k] != c ==> k in Exited(consumers, c.trigger))
            <==> !(Key(c.trigger) in consumers && consumers[Key(c.trigger)].trigger == c.trigger
                   && consumers[Key(c.trigger)].token != c.token)
  {
  }

  // ----- with one trigger, and with none -----

  lemma NothingDesired(instances: map<string, MqInstance>)
    ensures Unknown(instances, []) == None && Desired(instances, []) == map[] && SortedKeys(instances, []) == []
  {
    assert KeySeq([]) == [];
  }

  lemma SectionEmpties(v: State, key: string, c: Consumer)
    requires v.consumers == map[key := c]
    ensures Section(v, map[], []) == v.(consumers := map[], triggers := [], cancelled := v.cancelled + {c.token})
  {
    assert Kept(v.consumers, map[]) == map[];
    assert v.consumers - {} == v.consumers;
    assert Tokens(v.consumers) == {c.token} by {
      assert v.consumers[key] == c;
    }
    assert Pick(map[], []) == [];
  }

  lemma AloneDesired(t: Trigger, inst: MqInstance)
    requires t.enabled && inst.mqId == t.mqId
    ensures var instances, n := map[t.mqId := inst], Normalize(t, inst);
            && Unknown(instances, [t]) == None && Enabled(instances, [t]) == [n]
            && Desired(instances, [t]) == map[Key(n) := n] && SortedKeys(instances, [t]) == [Key(n)]
  {
    var instances, n := map[t.mqId := inst], Normalize(t, inst);
    NothingCollected(instances, [t]);
    CollectedOne(instances, [t], 0);
    assert [t][..0] == [] && [t][..1] == [t];
    assert Enabled(instances, [t]) == [n];
    assert [] + [n] == [n];
    ByKeySnoc([], n);
    assert KeySeq([n]) == [Key(n)];
    assert [Key(n)][..0] == [];
    assert SortStrings([Key(n)]) == Insert([], Key(n));
  }

  lemma AloneSection(v: State, n: Trigger)
    requires v.consumers == map[]
    ensures Section(v, map[Key(n) := n], [Key(n)]) == v.(triggers := [n])
  {
    var desired := map[Key(n) := n];
    assert Kept(v.consumers, desired) == map[];
    assert Pick(desired, [Key(n)]) == [n];
    assert v.cancelled + Tokens(v.consumers - {}) == v.cancelled;
  }

  // ----- validateConfig, the loop over the triggers -----

  datatype ConfigError =
    | NoError | IdMissing | IdInvalid | IdDuplicate | KindUnsupported | ConcurrencyNegative | AttemptsNegative
    | PrefetchNegative | BackoffNegative | EnabledIncomplete | MqUnknown | FunctionInvalid

  /** The first complaint about one trigger, when `seen` are the ids before it. */
  function Complaint(mqIds: set<string>, seen: set<string>, t: Trigger): ConfigError {
    if t.id == "" then IdMissing
    else if t.id != Names.MqLabel(t.id) then IdInvalid
    else if t.id in seen then IdDuplicate
    else if t.kind != "mq" then KindUnsupported
    else if t.maxConcurrency < 0 then ConcurrencyNegative
    else if t.maxAttempts < 0 then AttemptsNegative
    else if t.prefetch < 0 then PrefetchNegative
    else if t.retryBackoffMs < 0 then BackoffNegative
    else if !t.enabled then NoError
    else if t.mqId == "" || t.queue == "" || t.func == "" then EnabledIncomplete
    else if t.mqId !in mqIds then MqUnknown
    else if !Names.DnsLabel(t.func) then FunctionInvalid
    else NoError
  }

  predicate ValidTrigger(mqIds: set<string>, t: Trigger) {
    && t.id != "" && Names.MqFixed(t.id) && t.kind == "mq"
    && t.maxConcurrency >= 0 && t.maxAttempts >= 0 && t.prefetch >= 0 && t.retryBackoffMs >= 0
    && (t.enabled ==> t.mqId != "" && t.queue != "" && t.mqId in mqIds && Names.DnsLabel(t.func))
  }

  predicate DistinctIds(ts: seq<Trigger>) {
    forall i, j :: 0 <= i < j < |ts| ==> ts[i].id != ts[j].id
  }

  /** Accepted exactly when every trigger is valid and no two share an id; otherwise the first complaint is returned. */
  method ValidateTriggers(mqIds: set<string>, ts: seq<Trigger>) returns (r: ConfigError)
    ensures r == NoError <==> (forall i :: 0 <= i < |ts| ==> ValidTrigger(mqIds, ts[i])) && DistinctIds(ts)
    ensures r != NoError ==> exists i :: 0 <= i < |ts| && r == Complaint(mqIds, set t | t in ts[..i] :: t.id, ts[i])
                                         && (forall j :: 0 <= j < i ==> ValidTrigger(mqIds, ts[j]))
                                         && DistinctIds(ts[..i])
  {
    hide Complaint, ValidTrigger;
    var ids: set<string> := {};
    for i := 0 to |ts|
      invariant ids == set t | t in ts[..i] :: t.id
      invariant (forall j :: 0 <= j < i ==> ValidTrigger(mqIds, ts[j])) && DistinctIds(ts[..i])
    {
      r := Complaint(mqIds, ids, ts[i]);
      NoComplaint(mqIds, ids, ts[i]);
      SeenIds(ts, i);
      if r != NoError {
        return;
      }
      ids := ids + {ts[i].id};
      assert ts[..i + 1] == ts[..i] + [ts[i]];
    }
    assert ts[..|ts|] == ts;
    r := NoError;
  }

  lemma NoComplaint(mqIds: set<string>, seen: set<string>, t: Trigger)
    ensures Complaint(mqIds, seen, t) == NoError <==> ValidTrigger(mqIds, t) && t.id !in seen
  {
    Names.MqFixedPoints(t.id);
  }

  lemma SeenIds(ts: seq<Trigger>, i: nat)
    requires i < |ts|
    ensures ts[i].id in (set t | t in ts[..i] :: t.id) <==> exists j :: 0 <= j < i && ts[j].id == ts[i].id
    ensures DistinctIds(ts) ==> ts[i].id !in (set t | t in ts[..i] :: t.id)
  {
    if ts[i].id in (set t | t in ts[..i] :: t.id) {
      var t :| t in ts[..i] && t.id == ts[i].id;
      var j :| 0 <= j < i && ts[..i][j] == t;
      assert ts[j].id == ts[i].id;
    }
    if j :| 0 <= j < i && ts[j].id == ts[i].id {
      assert ts[..i][j] == ts[j];
    }
  }

  /** So accepted enabled triggers never share a key, and each gets a consumer of its own. */
  lemma ValidatedKeysDistinct(mqIds: set<string>, ts: seq<Trigger>, i: nat, j: nat)
    requires forall k :: 0 <= k < |ts| ==> ValidTrigger(mqIds, ts[k])
    requires DistinctIds(ts) && i < |ts| && j < |ts| && ts[i].enabled && ts[j].enabled && Key(ts[i]) == Key(ts[j])
    ensures i == j
  {
    Names.TriggerKeyIsInjective(ts[i].mqId, ts[i].func, ts[i].id, ts[j].mqId, ts[j].func, ts[j].id);
  }
}
