/** When the answer of fetchLogs is the global tail over all collectors: it asks only the collectors of nodes that run
    an instance of the function now, and a failing one is skipped. */
module LogGlobal {
  import opened LogTail

  type Histories = map<string, seq<Entry>>

  /** Everything the collector's ring was ever given for the function. */
  function History(histories: Histories, pod: string): seq<Entry> {
    if pod in histories then histories[pod] else []
  }

  /** What the stream filter lets through. */
  function Passed(s: seq<Entry>, stream: string): seq<Entry> {
    if stream == "" then s else Matching(s, stream)
  }

  function Reach(n: int): nat { if 0 < n < RING_SIZE then n else RING_SIZE }

  /** The answer of localEntries, and what it leaves behind. */
  function Shown(h: seq<Entry>, q: Query): seq<Entry> { Passed(Tail(h, Reach(q.tail)), q.stream) }
  function Left(h: seq<Entry>, q: Query): seq<Entry> { Passed(h[..|h| - |Tail(h, Reach(q.tail))|], q.stream) }

  lemma ShownAndLeft(h: seq<Entry>, q: Query)
    ensures Passed(h, q.stream) == Left(h, q) + Shown(h, q)
  {
    var tail := Tail(h, Reach(q.tail));
    var older := h[..|h| - |tail|];
    assert h == older + tail;
    MatchingConcat(older, tail, q.stream);
  }

  /** A collector answers with what localEntries gives; an empty answer is an error. */
  predicate Faithful(histories: Histories, q: Query, fetched: Outcomes, pod: string) {
    Answered(fetched, q, pod) ==> Held(fetched, q, pod) == Shown(History(histories, pod), q)
  }

  /** What a collector holds that is not in the answers: what its own answer leaves behind, or all of it. */
  function Missed(histories: Histories, q: Query, fetched: Outcomes, asked: seq<string>, pod: string): seq<Entry> {
    if pod in asked && Answered(fetched, q, pod) then Left(History(histories, pod), q)
    else Passed(History(histories, pod), q.stream)
  }

  function AllMissed(histories: Histories, q: Query, fetched: Outcomes, asked: seq<string>,
      pods: seq<string>): seq<seq<Entry>>
  {
    seq(|pods|, i requires 0 <= i < |pods| => Missed(histories, q, fetched, asked, pods[i]))
  }

  function AllPassed(histories: Histories, q: Query, pods: seq<string>): seq<seq<Entry>> {
    seq(|pods|, i requires 0 <= i < |pods| => Passed(History(histories, pods[i]), q.stream))
  }

  // ----- counting -----

  lemma {:induction false} PassedSince(histories: Histories, q: Query, fetched: Outcomes, asked: seq<string>,
      pods: seq<string>, t: int)
    requires forall i :: 0 <= i < |pods| ==> pods[i] in asked && Faithful(histories, q, fetched, pods[i])
    ensures Since(Concat(AllPassed(histories, q, pods)), t)
         == Since(Concat(Answers(pods, q, fetched)), t)
           + Since(Concat(AllMissed(histories, q, fetched, asked, pods)), t)
    decreases |pods|
  {
    if pods != [] {
      var m := |pods| - 1;
      var init, pod := pods[..m], pods[m];
      PassedSince(histories, q, fetched, asked, init, t);
      PassedLast(histories, q, fetched, asked, pods, t);
      PartSince(histories, q, fetched, asked, pod, t);
    }
  }

  lemma PartSince(histories: Histories, q: Query, fetched: Outcomes, asked: seq<string>, pod: string, t: int)
    requires pod in asked && Faithful(histories, q, fetched, pod)
    ensures Since(Passed(History(histories, pod), q.stream), t)
         == Since(Held(fetched, q, pod), t) + Since(Missed(histories, q, fetched, asked, pod), t)
  {
    hide Passed, Shown, Left;
    var h := History(histories, pod);
    ShownAndLeft(h, q);
    SinceConcat(Left(h, q), Shown(h, q), t);
  }

  lemma PassedLast(histories: Histories, q: Query, fetched: Outcomes, asked: seq<string>, pods: seq<string>, t: int)
    requires pods != []
    ensures var init, pod := pods[..|pods| - 1], pods[|pods| - 1];
            && Since(Concat(AllPassed(histories, q, pods)), t)
               == Since(Concat(AllPassed(histories, q, init)), t) + Since(Passed(History(histories, pod), q.stream), t)
            && Since(Concat(Answers(pods, q, fetched)), t)
               == Since(Concat(Answers(init, q, fetched)), t) + Since(Held(fetched, q, pod), t)
            && Since(Concat(AllMissed(histories, q, fetched, asked, pods)), t)
               == Since(Concat(AllMissed(histories, q, fetched, asked, init)), t)
                  + Since(Missed(histories, q, fetched, asked, pod), t)
  {
    hide Passed, Missed, Held, Since, Concat;
    var m := |pods| - 1;
    assert AllPassed(histories, q, pods)[..m] == AllPassed(histories, q, pods[..m]);
    assert Answers(pods, q, fetched)[..m] == Answers(pods[..m], q, fetched);
    assert AllMissed(histories, q, fetched, asked, pods)[..m] == AllMissed(histories, q, fetched, asked, pods[..m]);
    SinceLastPart(AllPassed(histories, q, pods), t);
    SinceLastPart(Answers(pods, q, fetched), t);
    SinceLastPart(AllMissed(histories, q, fetched, asked, pods), t);
  }

  lemma SinceLastPart(ss: seq<seq<Entry>>, t: int)
    requires ss != []
    ensures Since(Concat(ss), t) == Since(Concat(ss[..|ss| - 1]), t) + Since(ss[|ss| - 1], t)
  {
    SinceConcat(Concat(ss[..|ss| - 1]), ss[|ss| - 1], t);
  }

  lemma {:induction false} ConcatTogether<T>(a: seq<seq<T>>, b: seq<seq<T>>)
    ensures Concat(a + b) == Concat(a) + Concat(b)
  {
    if b == [] {
      assert a + b == a;
    } else {
      var c, init, last := a + b, b[..|b| - 1], b[|b| - 1];
      assert c[..|c| - 1] == a + init && c[|c| - 1] == last;
      ConcatTogether(a, init);
      assert Concat(a) + (Concat(init) + last) == (Concat(a) + Concat(init)) + last;
    }
  }

  /** All that is held is what the answers show and what they miss. */
  lemma AllSince(histories: Histories, q: Query, fetched: Outcomes, asked: seq<string>, others: seq<string>, t: int)
    requires forall i :: 0 <= i < |asked| ==> Faithful(histories, q, fetched, asked[i])
    requires forall i :: 0 <= i < |others| ==> others[i] !in asked
    ensures Since(Concat(AllPassed(histories, q, asked + others)), t)
         == Since(Concat(Answers(asked, q, fetched)), t)
            + Since(Concat(AllMissed(histories, q, fetched, asked, asked + others)), t)
  {
    hide Since, Concat, Passed;
    var missed := AllMissed(histories, q, fetched, asked, asked);
    var missedToo := AllMissed(histories, q, fetched, asked, others);
    PassedSince(histories, q, fetched, asked, asked, t);
    assert AllPassed(histories, q, asked + others) == AllPassed(histories, q, asked) + AllPassed(histories, q, others);
    assert AllMissed(histories, q, fetched, asked, asked + others) == missed + missedToo;
    assert missedToo == AllPassed(histories, q, others);
    ConcatTogether(AllPassed(histories, q, asked), AllPassed(histories, q, others));
    ConcatTogether(missed, missedToo);
    SinceConcat(Concat(AllPassed(histories, q, asked)), Concat(AllPassed(histories, q, others)), t);
    SinceConcat(Concat(missed), Concat(missedToo), t);
  }

  lemma {:induction false} SinceTimes(a: seq<Entry>, b: seq<Entry>, t: int)
    requires Times(a) == Times(b)
    ensures Since(a, t) == Since(b, t)
    decreases |a|
  {
    assert |Times(a)| == |Times(b)|;
    if a != [] {
      assert Times(a)[|a| - 1] == Times(b)[|a| - 1];
      assert Times(a[..|a| - 1]) == Times(a)[..|a| - 1] == Times(b)[..|b| - 1] == Times(b[..|b| - 1]);
      SinceTimes(a[..|a| - 1], b[..|b| - 1], t);
    }
  }

  lemma {:induction false} SinceMember(s: seq<Entry>, e: Entry)
    requires e in s
    ensures Since(s, e.time) >= 1
  {
    if s[|s| - 1] != e {
      assert s == s[..|s| - 1] + [s[|s| - 1]];
      SinceMember(s[..|s| - 1], e);
    }
  }

  lemma {:induction false} SinceNone(s: seq<Entry>, t: int)
    requires forall e :: e in s ==> e.time < t
    ensures Since(s, t) == 0
  {
    if s != [] {
      assert s[|s| - 1] in s;
      SinceNone(s[..|s| - 1], t);
    }
  }

  lemma {:induction false} SinceMonotone(s: seq<Entry>, t: int, u: int)
    requires t <= u
    ensures Since(s, t) >= Since(s, u)
  {
    if s != [] { SinceMonotone(s[..|s| - 1], t, u); }
  }

  /** Each missed entry is behind at least n shown ones; without a limit on the tail, nothing is missed. */
  ghost predicate Harmless(n: int, shown: seq<Entry>, missed: seq<Entry>) {
    if n <= 0 then missed == [] else forall e :: e in missed ==> Since(shown, e.time) >= n
  }

  /** Leaving out some entries keeps the last times exactly if that is harmless. */
  lemma LeavingOut(n: int, shown: seq<Entry>, missed: seq<Entry>, x: seq<Entry>, y: seq<Entry>)
    requires Sorted(x) && multiset(x) == multiset(shown)
    requires Sorted(y) && forall t :: Since(y, t) == Since(shown, t) + Since(missed, t)
    ensures Times(Tail(x, n)) == Times(Tail(y, n)) <==> Harmless(n, shown, missed)
  {
    forall t ensures Since(x, t) == Since(shown, t) { SincePermuted(x, shown, t); }
    if Harmless(n, shown, missed) {
      forall t ensures Capped(Since(x, t), n) == Capped(Since(y, t), n) {
        HarmlessCount(n, shown, missed, t);
      }
      SameLength(x, y, n);
      SameTimes(x, y, n);
    }
    if Times(Tail(x, n)) == Times(Tail(y, n)) {
      forall e | e in missed ensures n > 0 && Since(shown, e.time) >= n {
        SameCount(x, y, n, e.time);
        SinceMember(missed, e);
      }
      assert missed != [] ==> missed[0] in missed;
    }
  }

  lemma HarmlessCount(n: int, shown: seq<Entry>, missed: seq<Entry>, t: int)
    requires Harmless(n, shown, missed)
    ensures Capped(Since(shown, t) + Since(missed, t), n) == Capped(Since(shown, t), n)
  {
    if n > 0 && Since(shown, t) < n {
      forall e | e in missed ensures e.time < t {
        if e.time >= t { SinceMonotone(shown, t, e.time); }
      }
      SinceNone(missed, t);
    }
  }

  /** Equal last times mean equal counts, up to n. */
  lemma SameCount(x: seq<Entry>, y: seq<Entry>, n: int, t: int)
    requires Sorted(x) && Sorted(y) && Times(Tail(x, n)) == Times(Tail(y, n))
    ensures Capped(Since(x, t), n) == Capped(Since(y, t), n)
  {
    SinceTimes(Tail(x, n), Tail(y, n), t);
    if n > 0 {
      SinceTail(x, n, t);
      SinceTail(y, n, t);
    }
  }

  // ----- the answer of fetchLogs -----

  /** `asked` and `others` together list every collector once. */
  ghost predicate AllCollectors(nodes: seq<string>, collectors: map<string, string>, others: seq<string>) {
    && NoDup(Pods(nodes, collectors) + others)
    && forall pod :: pod in Pods(nodes, collectors) + others <==> pod != "" && pod in collectors.Values
  }

  /** For any nodes, failures, tail and stream filter: the times that fetchLogs returns are those of the last ones of
      everything that passes the filter and was ever pushed to any collector, if and only if what the answers miss is
      harmless. */
  lemma FetchExactly(nodes: seq<string>, collectors: map<string, string>, others: seq<string>, histories: Histories,
                     q: Query, fetched: Outcomes, r: seq<Entry>, y: seq<Entry>)
    requires AllCollectors(nodes, collectors, others)
    requires forall pod :: pod in Pods(nodes, collectors) ==> Faithful(histories, q, fetched, pod)
    requires Merged(Answers(Pods(nodes, collectors), q, fetched), q.tail, r)
    requires Sorted(y) && multiset(y) == multiset(Concat(AllPassed(histories, q, Pods(nodes, collectors) + others)))
    ensures var asked := Pods(nodes, collectors);
            Times(r) == Times(Tail(y, q.tail))
            <==> Harmless(q.tail, Concat(Answers(asked, q, fetched)),
                          Concat(AllMissed(histories, q, fetched, asked, asked + others)))
  {
    var asked := Pods(nodes, collectors);
    var shown := Concat(Answers(asked, q, fetched));
    var missed := Concat(AllMissed(histories, q, fetched, asked, asked + others));
    var x :| Sorted(x) && multiset(x) == multiset(shown) && r == Tail(x, q.tail);
    NoneTwice(asked, others);
    forall t ensures Since(y, t) == Since(shown, t) + Since(missed, t) {
      SincePermuted(y, Concat(AllPassed(histories, q, asked + others)), t);
      AllSince(histories, q, fetched, asked, others, t);
    }
    LeavingOut(q.tail, shown, missed, x, y);
  }

  lemma NoneTwice(a: seq<string>, b: seq<string>)
    requires NoDup(a + b)
    ensures forall i :: 0 <= i < |b| ==> b[i] !in a
  {
    forall i, j | 0 <= i < |b| && 0 <= j < |a| ensures b[i] != a[j] {
      assert (a + b)[|a| + i] == b[i] && (a + b)[j] == a[j];
    }
  }

  // ----- without a filter, and with a tail that a ring can hold -----

  /** The collector was not asked, or did not answer. */
  predicate Silent(q: Query, fetched: Outcomes, asked: seq<string>, pod: string) {
    pod !in asked || !Answered(fetched, q, pod)
  }

  lemma {:induction false} ConcatMember<T>(ss: seq<seq<T>>, x: T)
    ensures x in Concat(ss) <==> exists i :: 0 <= i < |ss| && x in ss[i]
  {
    if ss != [] {
      var m := |ss| - 1;
      ConcatMember(ss[..m], x);
      if i :| 0 <= i < |ss| && x in ss[i] {
        assert i < m ==> ss[..m][i] == ss[i];
      }
      if x in Concat(ss[..m]) {
        var i :| 0 <= i < m && x in ss[..m][i];
        assert ss[i] == ss[..m][i];
      }
    }
  }

  lemma {:induction false} SincePart(ss: seq<seq<Entry>>, i: nat, t: int)
    requires i < |ss|
    ensures Since(Concat(ss), t) >= Since(ss[i], t)
  {
    SinceLastPart(ss, t);
    if i < |ss| - 1 {
      assert ss[..|ss| - 1][i] == ss[i];
      SincePart(ss[..|ss| - 1], i, t);
    }
  }

  /** What an answering ring leaves behind is older than the n entries that it shows. */
  lemma LeftIsOlder(h: seq<Entry>, q: Query, e: Entry)
    requires Sorted(h) && q.stream == "" && 0 < q.tail <= RING_SIZE && e in Left(h, q)
    ensures Since(Shown(h, q), e.time) >= q.tail
  {
    var tail := Tail(h, q.tail);
    assert Reach(q.tail) == q.tail && |tail| == q.tail;
    var k :| 0 <= k < |h| - |tail| && h[k] == e;
    SinceBounds(tail, e.time);
  }

  /** The times are those of the last n entries ever pushed on any node if and only if every entry of a collector that
      was not asked or did not answer is behind at least n entries of the answers. */
  lemma FetchIsGlobal(nodes: seq<string>, collectors: map<string, string>, others: seq<string>, histories: Histories,
                      q: Query, fetched: Outcomes, r: seq<Entry>, y: seq<Entry>)
    requires q.stream == "" && 0 < q.tail <= RING_SIZE && AllCollectors(nodes, collectors, others)
    requires forall pod :: pod in histories ==> Sorted(histories[pod])
    requires forall pod :: pod in Pods(nodes, collectors) ==> Faithful(histories, q, fetched, pod)
    requires Merged(Answers(Pods(nodes, collectors), q, fetched), q.tail, r)
    requires Sorted(y) && multiset(y) == multiset(Concat(AllPassed(histories, q, Pods(nodes, collectors) + others)))
    ensures var asked := Pods(nodes, collectors);
            Times(r) == Times(Tail(y, q.tail))
            <==> forall pod, e |
                   pod in asked + others && Silent(q, fetched, asked, pod) && e in History(histories, pod) ::
                   Since(Concat(Answers(asked, q, fetched)), e.time) >= q.tail
  {
    var asked := Pods(nodes, collectors);
    FetchExactly(nodes, collectors, others, histories, q, fetched, r, y);
    hide Pods, AllCollectors, Merged, Times, Tail, Since, Concat, AllPassed, Answers, AllMissed;
    HarmlessMeans(histories, q, fetched, asked, asked + others);
  }

  lemma HarmlessMeans(histories: Histories, q: Query, fetched: Outcomes, asked: seq<string>, pods: seq<string>)
    requires q.stream == "" && 0 < q.tail <= RING_SIZE
    requires forall pod :: pod in histories ==> Sorted(histories[pod])
    requires forall pod :: pod in asked ==> Faithful(histories, q, fetched, pod)
    ensures var shown := Concat(Answers(asked, q, fetched));
            Harmless(q.tail, shown, Concat(AllMissed(histories, q, fetched, asked, pods)))
            <==> forall pod, e | pod in pods && Silent(q, fetched, asked, pod) && e in History(histories, pod) ::
                   Since(shown, e.time) >= q.tail
  {
    hide Since, Concat, Answers, Faithful, History, Silent, Missed;
    var shown, parts := Concat(Answers(asked, q, fetched)), AllMissed(histories, q, fetched, asked, pods);
    if Harmless(q.tail, shown, Concat(parts)) {
      forall pod, e | pod in pods && Silent(q, fetched, asked, pod) && e in History(histories, pod)
        ensures Since(shown, e.time) >= q.tail
      {
        var i :| 0 <= i < |pods| && pods[i] == pod;
        SilentMisses(histories, q, fetched, asked, pod, e);
        assert e in parts[i];
        ConcatMember(parts, e);
      }
    }
    if forall pod, e | pod in pods && Silent(q, fetched, asked, pod) && e in History(histories, pod) ::
         Since(shown, e.time) >= q.tail
    {
      forall e | e in Concat(parts) ensures Since(shown, e.time) >= q.tail {
        ConcatMember(parts, e);
        var i :| 0 <= i < |parts| && e in parts[i];
        LeftBehind(histories, q, fetched, asked, pods[i], e);
      }
    }
  }

  lemma SilentMisses(histories: Histories, q: Query, fetched: Outcomes, asked: seq<string>, pod: string, e: Entry)
    requires q.stream == "" && Silent(q, fetched, asked, pod) && e in History(histories, pod)
    ensures e in Missed(histories, q, fetched, asked, pod)
  {
  }

  lemma LeftBehind(histories: Histories, q: Query, fetched: Outcomes, asked: seq<string>, pod: string, e: Entry)
    requires q.stream == "" && 0 < q.tail <= RING_SIZE && (pod in histories ==> Sorted(histories[pod]))
    requires pod in asked ==> Faithful(histories, q, fetched, pod)
    requires e in Missed(histories, q, fetched, asked, pod)
    requires Silent(q, fetched, asked, pod) && e in History(histories, pod)
             ==> Since(Concat(Answers(asked, q, fetched)), e.time) >= q.tail
    ensures Since(Concat(Answers(asked, q, fetched)), e.time) >= q.tail
  {
    if !Silent(q, fetched, asked, pod) {
      var i :| 0 <= i < |asked| && asked[i] == pod;
      LeftIsOlder(History(histories, pod), q, e);
      assert Answers(asked, q, fetched)[i] == Shown(History(histories, pod), q);
      SincePart(Answers(asked, q, fetched), i, e.time);
    }
  }

  /** It need not be so: the function has been scaled away from the node whose ring holds the latest entry. */
  lemma ScaledAwayIsMissed(early: Entry, late: Entry)
    requires early.time < late.time
    ensures var nodes, collectors := ["one"], map["one" := "p", "two" := "q"];
            var histories, query := map["p" := [early], "q" := [late]], Query("f", 1, "");
            var fetched: Outcomes := map[("p", query) := Got([early])];
            && AllCollectors(nodes, collectors, ["q"]) && Pods(nodes, collectors) == ["p"]
            && Faithful(histories, query, fetched, "p")
            && Merged(Answers(["p"], query, fetched), 1, [early])
            && Sorted([early, late])
            && multiset([early, late]) == multiset(Concat(AllPassed(histories, query, ["p", "q"])))
            && Times([early]) != Times(Tail([early, late], 1))
  {
    var nodes, collectors := ["one"], map["one" := "p", "two" := "q"];
    var histories, query := map["p" := [early], "q" := [late]], Query("f", 1, "");
    var fetched: Outcomes := map[("p", query) := Got([early])];
    assert nodes[..0] == [] && Pods(nodes, collectors) == ["p"];
    assert ["p"] + ["q"] == ["p", "q"];
    assert collectors["one"] == "p" && collectors["two"] == "q";
    assert Answers(["p"], query, fetched) == [[early]];
    Single([early]);
    assert Tail([early], 1) == [early];
    assert AllPassed(histories, query, ["p", "q"]) == [[early], [late]];
    assert [[early], [late]] == [[early]] + [[late]];
    ConcatTogether([[early]], [[late]]);
    Single([late]);
    assert [early] + [late] == [early, late];
    assert Tail([early, late], 1) == [late];
    assert Times([early])[0] != Times([late])[0];
  }

  lemma Single<T>(s: seq<T>)
    ensures Concat([s]) == s
  {
    assert [s][..0] == [];
  }
}
