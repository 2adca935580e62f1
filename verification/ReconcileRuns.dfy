/** Reconciliation over whole runs, with the contexts that are alive: the goroutine of a consumer ends some time after
    its context is cancelled (mqsvc/rabbitmq.go:32-53), between any two sections of a reconcile, and then cleans up by
    comparing triggers (mqsvc/main.go:231-245). */
module ReconcileRuns {
  import opened Reconcile

  /** `pending` are the triggers that reconcileTriggers still has to start, `last` what it returned, `live` the
      consumers whose goroutine has not ended. */
  datatype Sys = Sys(v: State, pending: seq<Trigger>, reachable: set<string>, last: Outcome, live: set<Consumer>)

  datatype Event =
    | Sync(ts: seq<Trigger>, reachable: set<string>)   // reconcileTriggers up to its unlock
    | Start                                            // startConsumer of the next trigger
    | Exit(c: Consumer)

  const INIT := Sys(State(map[], [], {}, {}, 0), [], {}, Ok, {})

  /** Only one reconcile is under way at a time, and only a cancelled consumer ends. */
  function Step(instances: map<string, MqInstance>, s: Sys, e: Event): Sys {
    match e
    case Sync(ts, reachable) =>
      if s.pending != [] then s
      else if Unknown(instances, ts).Some? then s.(last := UnknownMq(Unknown(instances, ts).value.id))
      else
        var w := Section(s.v, Desired(instances, ts), SortedKeys(instances, ts));
        s.(v := w, pending := ToStart(w.consumers, w.triggers), reachable := reachable, last := Ok)
    case Start =>
      if s.pending == [] || s.pending[0].mqId !in instances then s
      else
        var t := s.pending[0];
        var (w, outcome) := StartOne(s.v, t, instances, s.reachable);
        s.(v := w, pending := if outcome.Ok? then s.pending[1..] else [], last := outcome,
           live := if outcome.Ok? && Key(t) !in s.v.consumers then s.live + {Consumer(t, s.v.nextToken)} else s.live)
    case Exit(c) =>
      if !Ends(s, c) then s
      else s.(v := s.v.(consumers := Exited(s.v.consumers, c.trigger)), live := s.live - {c})
  }

  predicate Ends(s: Sys, c: Consumer) { c in s.live && c.token in s.v.cancelled }

  function Run(instances: map<string, MqInstance>, s: Sys, events: seq<Event>): Sys
    decreases |events|
  {
    if events == [] then s else Run(instances, Step(instances, s, events[0]), events[1..])
  }

  /** A consumer ends while another one, with another token, is in the map for an equal trigger. */
  predicate Meets(s: Sys, e: Event) {
    && e.Exit? && Ends(s, e.c) && Key(e.c.trigger) in s.v.consumers
    && s.v.consumers[Key(e.c.trigger)].trigger == e.c.trigger && s.v.consumers[Key(e.c.trigger)].token != e.c.token
  }

  predicate NeverMeets(instances: map<string, MqInstance>, s: Sys, events: seq<Event>)
    decreases |events|
  {
    events == [] || (!Meets(s, events[0]) && NeverMeets(instances, Step(instances, s, events[0]), events[1..]))
  }

  /** The map lists live consumers only, and every live consumer has a token of its own. */
  ghost predicate Sound(s: Sys) {
    && Inv(s.v)
    && (forall k :: k in s.v.consumers ==> s.v.consumers[k] in s.live)
    && (forall c :: c in s.live ==> c.token < s.v.nextToken)
    && (forall c, d :: c in s.live && d in s.live && c.token == d.token ==> c == d)
  }

  predicate Listed(s: Sys, c: Consumer) {
    Key(c.trigger) in s.v.consumers && s.v.consumers[Key(c.trigger)] == c
  }

  /** Live, not cancelled, and lost from the map. */
  predicate Orphan(s: Sys, c: Consumer) {
    c in s.live && c.token !in s.v.cancelled && !Listed(s, c)
  }

  /** What startConsumer does to the map. */
  lemma Started(v: State, t: Trigger, instances: map<string, MqInstance>, reachable: set<string>)
    requires t.mqId in instances && Inv(v)
    ensures var (w, outcome) := StartOne(v, t, instances, reachable);
            && Inv(w) && w.cancelled == v.cancelled
            && if outcome.Ok? && Key(t) !in v.consumers
               then w.consumers == v.consumers[Key(t) := Consumer(t, v.nextToken)] && w.nextToken == v.nextToken + 1
               else w.consumers == v.consumers && w.nextToken == v.nextToken
  {
  }

  lemma StartSound(instances: map<string, MqInstance>, s: Sys)
    requires Sound(s)
    ensures Sound(Step(instances, s, Start))
  {
    hide StartOne, Inv;
    if s.pending != [] && s.pending[0].mqId in instances { Started(s.v, s.pending[0], instances, s.reachable); }
  }

  lemma ExitSound(instances: map<string, MqInstance>, s: Sys, c: Consumer)
    requires Sound(s)
    ensures Sound(Step(instances, s, Exit(c)))
  {
    hide Key;
  }

  lemma SyncSound(instances: map<string, MqInstance>, s: Sys, ts: seq<Trigger>, reachable: set<string>)
    requires Sound(s)
    ensures Sound(Step(instances, s, Sync(ts, reachable)))
  {
    if s.pending == [] && Unknown(instances, ts).None? {
      var desired, keys := Desired(instances, ts), SortedKeys(instances, ts);
      SectionFacts(s.v, desired, keys);
      KeptIsOld(s.v, desired, keys);
      hide Inv, Section, Desired, SortedKeys, ToStart, Unknown;
    }
  }

  lemma KeptIsOld(v: State, desired: map<string, Trigger>, keys: seq<string>)
    requires forall k :: k in keys ==> k in desired
    ensures var w := Section(v, desired, keys);
            && w.nextToken == v.nextToken && v.cancelled <= w.cancelled
            && (forall k :: k in w.consumers ==> k in v.consumers && w.consumers[k] == v.consumers[k])
            && (forall k :: k in v.consumers && k !in w.consumers ==> v.consumers[k].token in w.cancelled)
            && (forall n :: n in w.cancelled && n !in v.cancelled ==>
                  exists k :: k in v.consumers && v.consumers[k].token == n && k !in w.consumers)
  {
    var w := Section(v, desired, keys);
    var gone := v.consumers - w.consumers.Keys;
    forall k | k in v.consumers && k !in w.consumers ensures v.consumers[k].token in w.cancelled {
      assert k in gone && gone[k].token in Tokens(gone);
    }
    forall n | n in w.cancelled && n !in v.cancelled
      ensures exists k :: k in v.consumers && v.consumers[k].token == n && k !in w.consumers
    {
      var k :| k in gone && gone[k].token == n;
      assert k in v.consumers && v.consumers[k].token == n;
    }
  }

  lemma StepSound(instances: map<string, MqInstance>, s: Sys, e: Event)
    requires Sound(s)
    ensures Sound(Step(instances, s, e))
  {
    hide Sound, Step;
    match e
    case Sync(ts, reachable) => SyncSound(instances, s, ts, reachable);
    case Start => StartSound(instances, s);
    case Exit(c) => ExitSound(instances, s, c);
  }

  lemma SyncOrphan(instances: map<string, MqInstance>, s: Sys, ts: seq<Trigger>, reachable: set<string>, c: Consumer)
    requires Sound(s)
    ensures Orphan(Step(instances, s, Sync(ts, reachable)), c) <==> Orphan(s, c)
  {
    if s.pending == [] && Unknown(instances, ts).None? {
      KeptIsOld(s.v, Desired(instances, ts), SortedKeys(instances, ts));
      hide Section, Desired, SortedKeys, ToStart, Unknown;
      assert Inv(s.v);
      assert forall k :: k in s.v.consumers ==> Key(s.v.consumers[k].trigger) == k;
    }
  }

  lemma StartOrphan(instances: map<string, MqInstance>, s: Sys, c: Consumer)
    requires Sound(s)
    ensures Orphan(Step(instances, s, Start), c) <==> Orphan(s, c)
  {
  }

  lemma ExitOrphan(instances: map<string, MqInstance>, s: Sys, e: Event, c: Consumer)
    requires Sound(s) && e.Exit?
    ensures Orphan(Step(instances, s, e), c)
            <==> Orphan(s, c) || (Meets(s, e) && c == s.v.consumers[Key(e.c.trigger)])
  {
  }

  /** A step makes an orphan only of the consumer that an exit meets, and never takes one away. */
  lemma OrphansExactly(instances: map<string, MqInstance>, s: Sys, e: Event, c: Consumer)
    requires Sound(s)
    ensures Orphan(Step(instances, s, e), c) <==> Orphan(s, c) || (Meets(s, e) && c == s.v.consumers[Key(e.c.trigger)])
  {
    hide Step, Orphan, Sound;
    match e
    case Sync(ts, reachable) => SyncOrphan(instances, s, ts, reachable, c);
    case Start => StartOrphan(instances, s, c);
    case Exit(_) => ExitOrphan(instances, s, e, c);
  }

  lemma {:induction false} RunOrphans(instances: map<string, MqInstance>, s: Sys, events: seq<Event>)
    requires Sound(s)
    ensures var u := Run(instances, s, events);
            && Sound(u) && (forall c :: Orphan(s, c) ==> Orphan(u, c))
            && (NeverMeets(instances, s, events) ==> forall c :: Orphan(u, c) ==> Orphan(s, c))
            && (!NeverMeets(instances, s, events) ==> exists c :: Orphan(u, c))
    decreases |events|
  {
    if events != [] {
      hide Step, Orphan, Meets;
      var e := events[0];
      var w := Step(instances, s, e);
      StepSound(instances, s, e);
      forall c ensures Orphan(w, c) <==> Orphan(s, c) || (Meets(s, e) && MetBy(s, e, c)) {
        OrphansExactly(instances, s, e, c);
        MetIs(s, e, c);
      }
      RunOrphans(instances, w, events[1..]);
      if Meets(s, e) {
        var met := Met(s, e);
        assert Orphan(w, met);
      }
    }
  }

  predicate MetBy(s: Sys, e: Event, c: Consumer) {
    e.Exit? && Key(e.c.trigger) in s.v.consumers && c == s.v.consumers[Key(e.c.trigger)]
  }

  function Met(s: Sys, e: Event): (c: Consumer)
    requires Meets(s, e)
    ensures MetBy(s, e, c)
  {
    s.v.consumers[Key(e.c.trigger)]
  }

  lemma MetIs(s: Sys, e: Event, c: Consumer)
    ensures Meets(s, e) ==> e.Exit? && Key(e.c.trigger) in s.v.consumers
                            && (MetBy(s, e, c) <==> c == s.v.consumers[Key(e.c.trigger)])
  {
  }

  /** The consumers that are alive and not cancelled. */
  function Working(s: Sys): set<Consumer> {
    set c | c in s.live && c.token !in s.v.cancelled
  }

  /** Over any run of reconciles and exits in between: the live consumers that are not cancelled are exactly those in
      the map if and only if no exit met another consumer for an equal trigger. */
  lemma LiveAreConsumers(instances: map<string, MqInstance>, events: seq<Event>)
    ensures var s := Run(instances, INIT, events);
            Working(s) == s.v.consumers.Values <==> NeverMeets(instances, INIT, events)
  {
    RunOrphans(instances, INIT, events);
    var s := Run(instances, INIT, events);
    assert forall c :: !Orphan(INIT, c);
    ListedIsWorking(s);
    if NeverMeets(instances, INIT, events) {
      forall c | c in Working(s) ensures c in s.v.consumers.Values {
        assert !Orphan(s, c);
      }
    } else {
      var c :| Orphan(s, c);
      assert c in Working(s) && !Listed(s, c);
    }
  }

  lemma ListedIsWorking(s: Sys)
    requires Sound(s)
    ensures s.v.consumers.Values <= Working(s)
    ensures forall c :: c in s.v.consumers.Values ==> Listed(s, c)
  {
  }

  // ----- the limit: the end of a consumer compares triggers, not contexts -----

  /** One trigger and no consumer in the map: it is started. */
  lemma OneStarts(s: Sys, t: Trigger, inst: MqInstance)
    requires t.enabled && inst.mqId == t.mqId && inst.broker == "rabbitmq"
    requires s.pending == [] && s.v.consumers == map[]
    ensures var instances, n := map[t.mqId := inst], Normalize(t, inst);
            var u := Step(instances, Step(instances, s, Sync([t], {t.mqId})), Start);
            && u.pending == [] && u.v.consumers == map[Key(t) := Consumer(n, s.v.nextToken)]
            && u.v.cancelled == s.v.cancelled && u.v.nextToken == s.v.nextToken + 1
            && u.live == s.live + {Consumer(n, s.v.nextToken)}
  {
    var instances, n := map[t.mqId := inst], Normalize(t, inst);
    AloneDesired(t, inst);
    AloneSection(s.v, n);
    hide Unknown, Desired, SortedKeys, Section;
    assert ToStart(map[], [n]) == [n];
    assert Step(instances, s, Sync([t], {t.mqId})).v == s.v.(triggers := [n]);
  }

  /** Without triggers the one consumer is cancelled. */
  lemma OneCancelled(instances: map<string, MqInstance>, s: Sys, key: string, c: Consumer, reachable: set<string>)
    requires s.pending == [] && s.v.consumers == map[key := c]
    ensures var u := Step(instances, s, Sync([], reachable));
            && u.pending == [] && u.v.consumers == map[] && u.v.cancelled == s.v.cancelled + {c.token}
            && u.v.nextToken == s.v.nextToken && u.live == s.live
  {
    NothingDesired(instances);
    SectionEmpties(s.v, key, c);
    hide Unknown, Desired, SortedKeys, Section;
    assert ToStart(map[], []) == [];
  }

  /** The trigger is started, removed and started again; only then does the first goroutine end. */
  function LateExit(t: Trigger, inst: MqInstance): seq<Event> {
    [Sync([t], {t.mqId}), Start, Sync([], {t.mqId}), Sync([t], {t.mqId}), Start, Exit(Consumer(Normalize(t, inst), 0))]
  }

  function Again(t: Trigger): seq<Event> { [Sync([t], {t.mqId}), Start] }

  lemma {:induction false} RunTogether(instances: map<string, MqInstance>, s: Sys, a: seq<Event>, b: seq<Event>)
    ensures Run(instances, s, a + b) == Run(instances, Run(instances, s, a), b)
    ensures NeverMeets(instances, s, a + b) ==> NeverMeets(instances, Run(instances, s, a), b)
    decreases |a|
  {
    if a == [] {
      assert a + b == b;
    } else {
      hide Step, Meets;
      assert (a + b)[0] == a[0] && (a + b)[1..] == a[1..] + b;
      RunTogether(instances, Step(instances, s, a[0]), a[1..], b);
    }
  }

  lemma RunTwo(instances: map<string, MqInstance>, s: Sys, a: Event, b: Event)
    ensures Run(instances, s, [a, b]) == Step(instances, Step(instances, s, a), b)
  {
    hide Step;
    assert [a, b][1..] == [b];
    assert Run(instances, Step(instances, s, a), [b]) == Run(instances, Step(instances, Step(instances, s, a), b), []);
  }

  lemma RunOne(instances: map<string, MqInstance>, s: Sys, a: Event)
    ensures Run(instances, s, [a]) == Step(instances, s, a)
    ensures NeverMeets(instances, s, [a]) <==> !Meets(s, a)
  {
    hide Step, Meets;
    assert [a][1..] == [];
  }

  /** For every trigger there is such a run: the late exit meets the second consumer, which is lost from the map but
      alive, and the next reconcile starts a third one beside it. */
  lemma LateExitDoubles(t: Trigger, inst: MqInstance)
    requires t.enabled && inst.mqId == t.mqId && inst.broker == "rabbitmq"
    ensures var instances, n := map[t.mqId := inst], Normalize(t, inst);
            var s := Run(instances, INIT, LateExit(t, inst) + Again(t));
            && !NeverMeets(instances, INIT, LateExit(t, inst))
            && s.v.consumers == map[Key(t) := Consumer(n, 2)]
            && Working(s) == {Consumer(n, 1), Consumer(n, 2)}
  {
    var instances, n := map[t.mqId := inst], Normalize(t, inst);
    hide Step, Run, NeverMeets, Normalize;
    var sync, stop := Sync([t], {t.mqId}), Sync([], {t.mqId});
    OneStarts(INIT, t, inst);
    RunTwo(instances, INIT, sync, Start);
    var one := Run(instances, INIT, [sync, Start]);
    OneCancelled(instances, one, Key(t), Consumer(n, 0), {t.mqId});
    RunOne(instances, one, stop);
    var two := Run(instances, one, [stop]);
    OneStarts(two, t, inst);
    RunTwo(instances, two, sync, Start);
    var three := Run(instances, two, [sync, Start]);
    var late := Exit(Consumer(n, 0));
    RunOne(instances, three, late);
    LateMeets(instances, three, t, inst);
    var four := Run(instances, three, [late]);
    OneStarts(four, t, inst);
    RunTwo(instances, four, sync, Start);
    RunTogether(instances, INIT, [sync, Start], [stop] + [sync, Start] + [late]);
    assert [stop] + [sync, Start] + [late] == [stop] + ([sync, Start] + [late]);
    RunTogether(instances, one, [stop], [sync, Start] + [late]);
    RunTogether(instances, two, [sync, Start], [late]);
    assert [sync, Start] + ([stop] + [sync, Start] + [late]) == LateExit(t, inst);
    RunTogether(instances, INIT, LateExit(t, inst), Again(t));
  }

  lemma LateMeets(instances: map<string, MqInstance>, s: Sys, t: Trigger, inst: MqInstance)
    requires var n := Normalize(t, inst);
             && s.v.consumers == map[Key(t) := Consumer(n, 1)] && s.pending == [] && s.v.nextToken == 2
             && s.live == {Consumer(n, 0), Consumer(n, 1)} && s.v.cancelled == {0}
    ensures var n := Normalize(t, inst); var u := Step(instances, s, Exit(Consumer(n, 0)));
            && Meets(s, Exit(Consumer(n, 0))) && u.v.consumers == map[] && u.live == {Consumer(n, 1)}
            && u.pending == [] && u.v.cancelled == {0} && u.v.nextToken == 2
  {
  }

  // ----- a reconcile with exits between its sections -----

  /** What the reconcile that is under way will have done. */
  function Outlook(instances: map<string, MqInstance>, s: Sys): (State, Outcome)
    requires forall t :: t in s.pending ==> t.mqId in instances
  {
    if s.pending == [] then (s.v, s.last) else StartAll(s.v, s.pending, instances, s.reachable)
  }

  predicate Known(instances: map<string, MqInstance>, s: Sys) {
    forall t :: t in s.pending ==> t.mqId in instances
  }

  /** An exit that meets nobody changes nothing but itself. */
  lemma UnmetExit(s: Sys, c: Consumer)
    requires Sound(s) && Ends(s, c) && !Meets(s, Exit(c))
    ensures Exited(s.v.consumers, c.trigger) == s.v.consumers
  {
    ExitSparesOthers(s.v.consumers, c);
  }

  lemma StepOutlook(instances: map<string, MqInstance>, s: Sys, e: Event)
    requires Sound(s) && Known(instances, s) && !e.Sync? && !Meets(s, e)
    ensures var u := Step(instances, s, e);
            Known(instances, u) && u.reachable == s.reachable && Outlook(instances, u) == Outlook(instances, s)
  {
    match e
    case Exit(c) => if Ends(s, c) { UnmetExit(s, c); }
    case Start =>
      if s.pending != [] {
        assert s.pending == [s.pending[0]] + s.pending[1..];
        StartAllTurn(s.v, s.pending, instances, s.reachable);
        hide StartOne;
      }
  }

  lemma {:induction false} RunOutlook(instances: map<string, MqInstance>, s: Sys, events: seq<Event>)
    requires Sound(s) && Known(instances, s) && NeverMeets(instances, s, events)
    requires forall i :: 0 <= i < |events| ==> !events[i].Sync?
    ensures var u := Run(instances, s, events);
            Known(instances, u) && Outlook(instances, u) == Outlook(instances, s)
    decreases |events|
  {
    if events != [] {
      StepOutlook(instances, s, events[0]);
      StepSound(instances, s, events[0]);
      hide Step, Sound, Known, Outlook, Meets;
      RunOutlook(instances, Step(instances, s, events[0]), events[1..]);
    }
  }

  /** With any exits between its sections a reconcile ends, when nothing is left to start, exactly as it would without
      them, provided none of them meets another consumer. */
  lemma ReconcileAmidExits(instances: map<string, MqInstance>, s: Sys, ts: seq<Trigger>, reachable: set<string>,
      events: seq<Event>)
    requires Sound(s) && s.pending == [] && Unknown(instances, ts).None?
    requires forall i :: 0 <= i < |events| ==> !events[i].Sync?
    requires NeverMeets(instances, Step(instances, s, Sync(ts, reachable)), events)
    ensures var u := Run(instances, Step(instances, s, Sync(ts, reachable)), events);
            u.pending == [] ==> (u.v, u.last) == Reconciled(s.v, instances, ts, reachable)
  {
    var w := Step(instances, s, Sync(ts, reachable));
    StepSound(instances, s, Sync(ts, reachable));
    StartKnown(s.v, instances, ts);
    assert Outlook(instances, w) == Reconciled(s.v, instances, ts, reachable);
    RunOutlook(instances, w, events);
  }

  /** After a reconcile that returned nil, exits that meet nobody leave nothing for a second one with the same triggers
      to do, even if no broker can be reached any more. */
  lemma AgainAmidExits(instances: map<string, MqInstance>, s: Sys, ts: seq<Trigger>, reachable: set<string>,
      events: seq<Event>, reachable': set<string>)
    requires Sound(s) && s.pending == [] && Unknown(instances, ts).None?
    requires forall i :: 0 <= i < |events| ==> !events[i].Sync?
    requires NeverMeets(instances, Step(instances, s, Sync(ts, reachable)), events)
    ensures var u := Run(instances, Step(instances, s, Sync(ts, reachable)), events);
            u.pending == [] && u.last.Ok? ==> Step(instances, u, Sync(ts, reachable')) == u.(reachable := reachable')
  {
    ReconcileAmidExits(instances, s, ts, reachable, events);
    var u := Run(instances, Step(instances, s, Sync(ts, reachable)), events);
    if u.pending == [] && u.last.Ok? {
      ReconcileReaches(s.v, instances, ts, reachable);
      hide Run, NeverMeets, Unknown, Desired, SortedKeys, Section, ToStart, Matches, Reconciled;
      NothingLeft(u.v, Desired(instances, ts), SortedKeys(instances, ts));
    }
  }
}
