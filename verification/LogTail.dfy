/** logdaemon/shared.go: the ring buffer of a node, and the proxy that merges the rings of many nodes. */
module LogTail {

  datatype Entry = Entry(time: int, func: string, stream: string, line: string)

  const RING_SIZE: nat := 1000

  /** The last `n` of `s`; all of it when `n` is not positive or exceeds its length. */
  function Tail<T>(s: seq<T>, n: int): (r: seq<T>)
    ensures |r| == if 0 < n < |s| then n else |s|
  {
    if 0 < n < |s| then s[|s| - n..] else s
  }

  /** The tail is the end of the sequence. */
  lemma TailIsEnd<T>(s: seq<T>, n: int, i: nat)
    requires i < |Tail(s, n)|
    ensures Tail(s, n)[i] == s[|s| - |Tail(s, n)| + i]
  {
  }

  // ----- the ring of one node -----

  /** The slot of the i-th push. */
  function Slot(i: nat): (slot: nat)
    ensures slot < RING_SIZE
  {
    i % RING_SIZE
  }

  lemma SlotNext(i: nat)
    ensures (Slot(i) + 1) % RING_SIZE == Slot(i + 1)
  {
  }

  /** Pushes less than a whole turn apart have different slots. */
  lemma SlotsApart(i: nat, j: nat)
    requires i < j < i + RING_SIZE
    ensures Slot(i) != Slot(j)
  {
  }

  /** Where the last `size` entries begin, and the k-th of them. */
  lemma SlotBack(pushed: nat, size: nat, k: nat)
    requires size <= pushed && size <= RING_SIZE
    ensures ((Slot(pushed) - size + RING_SIZE) % RING_SIZE + k) % RING_SIZE == Slot(pushed - size + k)
  {
  }

  /** `history` is every entry ever pushed. */
  class Ring {
    const entries: array<Entry>
    var head: nat
    var count: nat
    ghost var history: seq<Entry>

    ghost predicate Valid()
      reads this, entries
    {
      && entries.Length == RING_SIZE
      && count == (if |history| < RING_SIZE then |history| else RING_SIZE)
      && head == Slot(|history|)
      && forall i :: |history| - count <= i < |history| ==> entries[Slot(i)] == history[i]
    }

    constructor ()
      ensures Valid() && history == [] && fresh(entries)
    {
      entries := new Entry[RING_SIZE];
      head, count, history := 0, 0, [];
    }

    method Push(e: Entry)
      requires Valid()
      modifies this, entries
      ensures Valid() && history == old(history) + [e]
    {
      hide Slot;
      forall i | |history| - RING_SIZE < i < |history| && i >= 0 ensures Slot(i) != head {
        SlotsApart(i, |history|);
      }
      SlotNext(|history|);
      entries[head] := e;
      head := (head + 1) % RING_SIZE;
      if count < RING_SIZE {
        count := count + 1;
      }
      history := history + [e];
    }

    /** The last n entries of all that was pushed, as far back as the ring reaches. */
    method Last(n: int) returns (out: seq<Entry>)
      requires Valid()
      ensures out == Tail(history, if 0 < n < RING_SIZE then n else RING_SIZE)
    {
      hide Slot;
      if count == 0 {
        return [];
      }
      var size := if n <= 0 || n > count then count else n;
      var start := (head - size + RING_SIZE) % RING_SIZE;
      ghost var first := |history| - size;
      out := [];
      for i := 0 to size
        invariant out == history[first..first + i]
      {
        SlotBack(|history|, size, i);
        out := out + [entries[(start + i) % RING_SIZE]];
      }
    }

    /** localEntries: the stream filter is applied to the tail. */
    method LocalEntries(n: int, stream: string) returns (out: seq<Entry>)
      requires Valid()
      ensures var tail := Tail(history, if 0 < n < RING_SIZE then n else RING_SIZE);
              out == if stream == "" then tail else Matching(tail, stream)
      ensures var tail := Tail(history, if 0 < n < RING_SIZE then n else RING_SIZE);
              stream != "" ==> exists at :: SelectedAt(out, tail, stream, at)
    {
      var tail := Last(n);
      if stream == "" {
        return tail;
      }
      out := [];
      for i := 0 to |tail|
        invariant out == Matching(tail[..i], stream)
      {
        assert tail[..i + 1][..i] == tail[..i];
        if tail[i].stream == stream {
          out := out + [tail[i]];
        }
      }
      assert tail[..|tail|] == tail;
      ghost var at := MatchingSelects(tail, stream);
    }
  }

  /** The entries of `out` stand at these places of the list, in this order, and these are exactly the places whose
      entry
      is of the stream. */
  ghost predicate SelectedAt(out: seq<Entry>, s: seq<Entry>, stream: string, at: seq<nat>) {
    && |at| == |out|
    && (forall i :: 0 <= i < |at| ==> at[i] < |s| && out[i] == s[at[i]])
    && (forall i, j :: 0 <= i < j < |at| ==> at[i] < at[j])
    && (forall k :: 0 <= k < |s| ==> (s[k].stream == stream <==> k in at))
  }

  /** The filter selects entries as they are. */
  lemma {:induction false} MatchingSelects(s: seq<Entry>, stream: string) returns (at: seq<nat>)
    ensures SelectedAt(Matching(s, stream), s, stream, at)
  {
    at := [];
    if s != [] {
      var m := |s| - 1;
      at := MatchingSelects(s[..m], stream);
      forall i | 0 <= i < |at| ensures at[i] < m && Matching(s[..m], stream)[i] == s[at[i]] {
        assert s[..m][at[i]] == s[at[i]];
      }
      forall k | 0 <= k < m ensures s[k].stream == stream <==> k in at { assert s[..m][k] == s[k]; }
      if s[m].stream == stream { at := at + [m]; }
    }
  }

  function Matching(s: seq<Entry>, stream: string): seq<Entry> {
    if s == [] then []
    else Matching(s[..|s| - 1], stream) + if s[|s| - 1].stream == stream then [s[|s| - 1]] else []
  }

  lemma {:induction false} MatchingConcat(a: seq<Entry>, b: seq<Entry>, stream: string)
    ensures Matching(a + b, stream) == Matching(a, stream) + Matching(b, stream)
  {
    if b == [] {
      assert a + b == a;
    } else {
      assert (a + b)[..|a + b| - 1] == a + b[..|b| - 1];
      MatchingConcat(a, b[..|b| - 1], stream);
    }
  }

  predicate AllMatch(s: seq<Entry>, stream: string) {
    forall i :: 0 <= i < |s| ==> s[i].stream == stream
  }

  lemma {:induction false} MatchingLength(s: seq<Entry>, stream: string)
    ensures |Matching(s, stream)| <= |s| && (|Matching(s, stream)| == |s| <==> AllMatch(s, stream))
  {
    if s != [] { MatchingLength(s[..|s| - 1], stream); }
  }

  /** So with a stream filter, and for any tail n, the answer is the last n matching entries of the history (all of
      them, when n is not positive) exactly when what the ring was asked for all matches or nothing older does. */
  lemma FilterAfterTail(history: seq<Entry>, n: int, stream: string)
    ensures var tail := Tail(history, if 0 < n < RING_SIZE then n else RING_SIZE);
            var older := history[..|history| - |tail|];
            Matching(tail, stream) == Tail(Matching(history, stream), n)
            <==> (0 < n <= RING_SIZE && AllMatch(tail, stream)) || Matching(older, stream) == []
  {
    var tail := Tail(history, if 0 < n < RING_SIZE then n else RING_SIZE);
    var older := history[..|history| - |tail|];
    assert history == older + tail;
    MatchingConcat(older, tail, stream);
    MatchingLength(tail, stream);
    MatchingLength(older, stream);
    if n > 0 { LastOfConcat(Matching(older, stream), Matching(tail, stream), n); }
  }

  lemma LastOfConcat<T>(a: seq<T>, b: seq<T>, n: int)
    requires n > 0 && |b| <= n
    ensures Tail(a + b, n) == b <==> a == [] || |b| == n
  {
    if |b| == n {
      assert Tail(a + b, n) == b;
    } else if a == [] {
      assert a + b == b;
    } else {
      assert |Tail(a + b, n)| > |b|;
    }
  }

  // ----- the proxy -----

  /** What the proxy asks every collector for. */
  datatype Query = Query(func: string, tail: int, stream: string)

  /** What a collector answers to the proxy; one that holds nothing answers with an error. */
  datatype Fetch = Failed | Got(entries: seq<Entry>)

  /** The outcome of each request that the proxy may make; a missing one fails. */
  type Outcomes = map<(string, Query), Fetch>

  predicate Answered(fetched: Outcomes, q: Query, pod: string) {
    (pod, q) in fetched && fetched[(pod, q)].Got?
  }

  function Held(fetched: Outcomes, q: Query, pod: string): seq<Entry> {
    if Answered(fetched, q, pod) then fetched[(pod, q)].entries else []
  }

  /** The node runs an instance and `pod` is its collector. */
  predicate Collects(collectors: map<string, string>, node: string, pod: string) {
    node != "" && pod != "" && node in collectors && collectors[node] == pod
  }

  /** The collector of each instance's node, in order of first use. */
  function Pods(nodes: seq<string>, collectors: map<string, string>): seq<string> {
    if nodes == [] then []
    else
      var before := Pods(nodes[..|nodes| - 1], collectors);
      var node := nodes[|nodes| - 1];
      if node == "" || node !in collectors || collectors[node] == "" || collectors[node] in before then before
      else before + [collectors[node]]
  }

  predicate NoDup(s: seq<string>) {
    forall i, j :: 0 <= i < j < |s| ==> s[i] != s[j]
  }

  /** Each collector of a node that runs an instance is asked exactly once. */
  lemma {:induction false} PodsOnce(nodes: seq<string>, collectors: map<string, string>)
    ensures NoDup(Pods(nodes, collectors))
  {
    if nodes != [] { PodsOnce(nodes[..|nodes| - 1], collectors); }
  }

  lemma {:induction false} PodsExactly(nodes: seq<string>, collectors: map<string, string>, pod: string)
    ensures pod in Pods(nodes, collectors) <==> exists node :: node in nodes && Collects(collectors, node, pod)
  {
    if nodes != [] {
      var init, last := nodes[..|nodes| - 1], nodes[|nodes| - 1];
      assert nodes == init + [last];
      PodsExactly(init, collectors, pod);
      assert last in nodes;
      if pod in Pods(nodes, collectors) && pod !in Pods(init, collectors) {
        assert Collects(collectors, last, pod);
      }
    }
  }

  function Concat<T>(ss: seq<seq<T>>): seq<T> {
    if ss == [] then [] else Concat(ss[..|ss| - 1]) + ss[|ss| - 1]
  }

  function Answers(pods: seq<string>, q: Query, fetched: Outcomes): seq<seq<Entry>> {
    seq(|pods|, i requires 0 <= i < |pods| => Held(fetched, q, pods[i]))
  }

  ghost predicate Sorted(s: seq<Entry>) {
    forall i, j :: 0 <= i < j < |s| ==> s[i].time <= s[j].time
  }

  /** The contract of sort.Slice on times: sorted, nothing lost, ties in any order. */
  method SortByTime(all: seq<Entry>) returns (sorted: seq<Entry>)
    ensures Sorted(sorted) && multiset(sorted) == multiset(all)
  {
    sorted := [];
    for i := 0 to |all|
      invariant Sorted(sorted) && multiset(sorted) == multiset(all[..i])
    {
      assert all[..i + 1] == all[..i] + [all[i]];
      sorted := InsertByTime(sorted, all[i]);
    }
    assert all[..|all|] == all;
  }

  method InsertByTime(s: seq<Entry>, e: Entry) returns (r: seq<Entry>)
    requires Sorted(s)
    ensures Sorted(r) && multiset(r) == multiset(s) + multiset{e}
  {
    var k := 0;
    while k < |s| && s[k].time <= e.time
      invariant k <= |s| && forall j :: 0 <= j < k ==> s[j].time <= e.time
    {
      k := k + 1;
    }
    r := s[..k] + [e] + s[k..];
    InsertedInOrder(s, k, e);
    assert s == s[..k] + s[k..];
  }

  lemma InsertedInOrder(s: seq<Entry>, k: nat, e: Entry)
    requires Sorted(s) && k <= |s|
    requires forall j :: 0 <= j < k ==> s[j].time <= e.time
    requires k < |s| ==> e.time < s[k].time
    ensures Sorted(s[..k] + [e] + s[k..])
  {
    var r := s[..k] + [e] + s[k..];
    forall i, j | 0 <= i < j < |r| ensures r[i].time <= r[j].time {
      var a := if i < k then s[i] else if i == k then e else s[i - 1];
      var b := if j < k then s[j] else if j == k then e else s[j - 1];
      assert r[i] == a && r[j] == b;
    }
  }

  /** The entries that some order of ties makes the last `tail` of all the answers. */
  ghost predicate Merged(answers: seq<seq<Entry>>, tail: int, r: seq<Entry>) {
    exists sorted :: Sorted(sorted) && multiset(sorted) == multiset(Concat(answers)) && r == Tail(sorted, tail)
  }

  datatype Listing<T> = Unavailable | Listed(value: T)

  /** fetchLogs: an error only when the instances or the collectors cannot be listed. */
  method FetchLogs(instances: Listing<seq<string>>, collectorsByNode: Listing<map<string, string>>,
                   fetched: Outcomes, func: string, tail: int, filterStream: string)
    returns (r: Listing<seq<Entry>>)
    ensures r.Listed? <==> instances.Listed? && collectorsByNode.Listed?
    ensures r.Listed? ==> Merged(Answers(Pods(instances.value, collectorsByNode.value),
                                         Query(func, tail, filterStream), fetched), tail, r.value)
  {
    if instances.Unavailable? || collectorsByNode.Unavailable? {
      return Unavailable;
    }
    var nodes, collectors, q := instances.value, collectorsByNode.value, Query(func, tail, filterStream);
    var all: seq<Entry>, seen: set<string> := [], {};
    for i := 0 to |nodes|
      invariant seen == set p | p in Pods(nodes[..i], collectors)
      invariant all == Concat(Answers(Pods(nodes[..i], collectors), q, fetched))
    {
      assert nodes[..i + 1][..i] == nodes[..i];
      var node := nodes[i];
      if node == "" || node !in collectors || collectors[node] == "" {
        continue;
      }
      var pod := collectors[node];
      if pod in seen {
        continue;
      }
      seen := seen + {pod};
      OneMorePod(Pods(nodes[..i], collectors), pod, q, fetched);
      if (pod, q) !in fetched || fetched[(pod, q)].Failed? {
        continue;
      }
      all := all + fetched[(pod, q)].entries;
    }
    assert nodes[..|nodes|] == nodes;
    if |all| == 0 {
      assert Sorted(all) && Tail(all, tail) == all;
      return Listed([]);
    }
    var sorted := SortByTime(all);
    r := Listed(if tail > 0 && |sorted| > tail then sorted[|sorted| - tail..] else sorted);
  }

  lemma OneMorePod(pods: seq<string>, pod: string, q: Query, fetched: Outcomes)
    ensures Concat(Answers(pods + [pod], q, fetched)) == Concat(Answers(pods, q, fetched)) + Held(fetched, q, pod)
  {
    assert Answers(pods + [pod], q, fetched)[..|pods|] == Answers(pods, q, fetched);
  }

  /** This entry is in the answer of a collector that runs on a node of some instance. */
  ghost predicate FromCollector(nodes: seq<string>, collectors: map<string, string>, q: Query, fetched: Outcomes,
                                e: Entry) {
    exists node, pod :: node in nodes && Collects(collectors, node, pod) && Answered(fetched, q, pod)
                        && e in fetched[(pod, q)].entries
  }

  lemma {:induction false} InConcat(ss: seq<seq<Entry>>, e: Entry)
    ensures e in Concat(ss) <==> exists i :: 0 <= i < |ss| && e in ss[i]
  {
    if ss != [] {
      var m := |ss| - 1;
      InConcat(ss[..m], e);
      if i :| 0 <= i < |ss| && e in ss[i] { assert i < m ==> ss[..m][i] == ss[i]; }
      if i :| 0 <= i < m && e in ss[..m][i] { assert ss[i] == ss[..m][i]; }
    }
  }

  lemma InAnswers(nodes: seq<string>, collectors: map<string, string>, q: Query, fetched: Outcomes, e: Entry)
    ensures e in Concat(Answers(Pods(nodes, collectors), q, fetched))
            <==> FromCollector(nodes, collectors, q, fetched, e)
  {
    var pods := Pods(nodes, collectors);
    InConcat(Answers(pods, q, fetched), e);
    if i :| 0 <= i < |pods| && e in Answers(pods, q, fetched)[i] {
      PodsExactly(nodes, collectors, pods[i]);
      var node :| node in nodes && Collects(collectors, node, pods[i]);
      assert Answered(fetched, q, pods[i]) && e in fetched[(pods[i], q)].entries;
    }
    if node, pod :| node in nodes && Collects(collectors, node, pod) && Answered(fetched, q, pod)
                    && e in fetched[(pod, q)].entries {
      PodsExactly(nodes, collectors, pod);
      var i :| 0 <= i < |pods| && pods[i] == pod;
      assert e in Answers(pods, q, fetched)[i];
    }
  }

  /** What fetchLogs returns are entries as the asked collectors answered them; without a limit on the tail, all of
      them. */
  lemma FetchedAsAnswered(nodes: seq<string>, collectors: map<string, string>, q: Query, fetched: Outcomes,
                          r: seq<Entry>, e: Entry)
    requires Merged(Answers(Pods(nodes, collectors), q, fetched), q.tail, r)
    ensures e in r ==> FromCollector(nodes, collectors, q, fetched, e)
    ensures q.tail <= 0 && FromCollector(nodes, collectors, q, fetched, e) ==> e in r
  {
    var all := Concat(Answers(Pods(nodes, collectors), q, fetched));
    InAnswers(nodes, collectors, q, fetched, e);
    var sorted :| Sorted(sorted) && multiset(sorted) == multiset(all) && r == Tail(sorted, q.tail);
    assert e in multiset(sorted) <==> e in multiset(all);
  }

  // ----- the distributed tail is the global tail -----

  /** How many entries are at time `t` or later. */
  function Since(s: seq<Entry>, t: int): nat {
    if s == [] then 0 else Since(s[..|s| - 1], t) + if s[|s| - 1].time >= t then 1 else 0
  }

  lemma {:induction false} SinceConcat(a: seq<Entry>, b: seq<Entry>, t: int)
    ensures Since(a + b, t) == Since(a, t) + Since(b, t)
  {
    if b == [] {
      assert a + b == a;
    } else {
      assert (a + b)[..|a + b| - 1] == a + b[..|b| - 1];
      SinceConcat(a, b[..|b| - 1], t);
    }
  }

  lemma {:induction false} SincePermuted(a: seq<Entry>, b: seq<Entry>, t: int)
    requires multiset(a) == multiset(b)
    ensures Since(a, t) == Since(b, t)
    decreases |a|
  {
    if a == [] {
      assert |multiset(b)| == 0;
    } else {
      var x := a[|a| - 1];
      assert x in multiset(b);
      var k :| 0 <= k < |b| && b[k] == x;
      assert a == a[..|a| - 1] + [x];
      Without(b, k);
      assert multiset(a) == multiset(a[..|a| - 1]) + multiset{x};
      MultisetCancel(multiset(a[..|a| - 1]), multiset(b[..k] + b[k + 1..]), x);
      SincePermuted(a[..|a| - 1], b[..k] + b[k + 1..], t);
      SinceWithout(b, k, t);
    }
  }

  lemma Without(b: seq<Entry>, k: nat)
    requires k < |b|
    ensures multiset(b) == multiset(b[..k] + b[k + 1..]) + multiset{b[k]}
  {
    assert b == b[..k] + [b[k]] + b[k + 1..];
  }

  lemma MultisetCancel(a: multiset<Entry>, b: multiset<Entry>, x: Entry)
    requires a + multiset{x} == b + multiset{x}
    ensures a == b
  {
    assert a == a + multiset{x} - multiset{x};
    assert b == b + multiset{x} - multiset{x};
  }

  lemma SinceWithout(b: seq<Entry>, k: nat, t: int)
    requires k < |b|
    ensures Since(b, t) == Since(b[..k] + b[k + 1..], t) + if b[k].time >= t then 1 else 0
  {
    assert b == b[..k] + [b[k]] + b[k + 1..];
    SinceMiddle(b[..k], b[k], b[k + 1..], t);
  }

  lemma SinceMiddle(a: seq<Entry>, e: Entry, b: seq<Entry>, t: int)
    ensures Since(a + [e] + b, t) == Since(a + b, t) + if e.time >= t then 1 else 0
  {
    hide Since;
    SinceConcat(a + [e], b, t);
    SinceLast(a + [e], a, e, t);
    SinceConcat(a, b, t);
  }

  lemma SinceLast(s: seq<Entry>, init: seq<Entry>, e: Entry, t: int)
    requires s == init + [e]
    ensures Since(s, t) == Since(init, t) + if e.time >= t then 1 else 0
  {
    assert s[..|s| - 1] == init;
  }

  lemma {:induction false} SinceBounds(s: seq<Entry>, t: int)
    ensures Since(s, t) <= |s|
    ensures (forall i :: 0 <= i < |s| ==> s[i].time >= t) ==> Since(s, t) == |s|
    ensures (forall i :: 0 <= i < |s| ==> s[i].time < t) ==> Since(s, t) == 0
  {
    if s != [] { SinceBounds(s[..|s| - 1], t); }
  }

  /** In a sorted sequence the counts determine every time. */
  lemma SinceSorted(s: seq<Entry>, t: int, k: nat)
    requires Sorted(s) && 1 <= k <= |s|
    ensures s[|s| - k].time >= t <==> Since(s, t) >= k
  {
    if s[|s| - k].time >= t {
      SinceSplit(s, |s| - k, t);
    } else {
      SinceSplit(s, |s| - k + 1, t);
    }
  }

  lemma SinceSplit(s: seq<Entry>, m: nat, t: int)
    requires Sorted(s) && m <= |s|
    ensures Since(s, t) == Since(s[..m], t) + Since(s[m..], t) && Since(s[m..], t) <= |s| - m
    ensures m < |s| && s[m].time >= t ==> Since(s[m..], t) == |s| - m
    ensures m > 0 && s[m - 1].time < t ==> Since(s[..m], t) == 0
  {
    hide Since;
    assert s == s[..m] + s[m..];
    SinceConcat(s[..m], s[m..], t);
    SinceBounds(s[..m], t);
    SinceBounds(s[m..], t);
  }

  lemma SinceTail(s: seq<Entry>, n: int, t: int)
    requires Sorted(s) && n > 0
    ensures Since(Tail(s, n), t) == if Since(s, t) < n then Since(s, t) else n
  {
    if n < |s| {
      SinceSplit(s, |s| - n, t);
    } else {
      SinceBounds(s, t);
    }
  }

  function Tails(rings: seq<seq<Entry>>, n: int): seq<seq<Entry>> {
    seq(|rings|, i requires 0 <= i < |rings| => Tail(rings[i], n))
  }

  function Capped(a: nat, n: int): int {
    if n > 0 && a > n then n else a
  }

  /** Cutting each ring to its last `n` loses nothing that could be among the last `n` of all. */
  lemma {:induction false} SinceTails(rings: seq<seq<Entry>>, n: int, t: int)
    requires forall i :: 0 <= i < |rings| ==> Sorted(rings[i])
    ensures Capped(Since(Concat(Tails(rings, n)), t), n) == Capped(Since(Concat(rings), t), n)
    decreases |rings|
  {
    if rings != [] {
      var m := |rings| - 1;
      assert Tails(rings, n)[..m] == Tails(rings[..m], n);
      SinceTails(rings[..m], n, t);
      SinceConcat(Concat(rings[..m]), rings[m], t);
      SinceConcat(Concat(Tails(rings[..m], n)), Tail(rings[m], n), t);
      if n > 0 { SinceTail(rings[m], n, t); }
    }
  }

  function Times(s: seq<Entry>): seq<int> {
    seq(|s|, i requires 0 <= i < |s| => s[i].time)
  }

  /** Two sorted sequences whose capped counts agree have the same last times. */
  lemma SameTimes(x: seq<Entry>, y: seq<Entry>, n: int)
    requires Sorted(x) && Sorted(y)
    requires forall t :: Capped(Since(x, t), n) == Capped(Since(y, t), n)
    requires |Tail(x, n)| == |Tail(y, n)|
    ensures Times(Tail(x, n)) == Times(Tail(y, n))
  {
    var size := |Tail(x, n)|;
    forall i | 0 <= i < size ensures Tail(x, n)[i].time == Tail(y, n)[i].time {
      var k := size - i;
      assert Tail(x, n)[i] == x[|x| - k] && Tail(y, n)[i] == y[|y| - k];
      SameTime(x, y, n, k, x[|x| - k].time);
      SameTime(x, y, n, k, y[|y| - k].time);
    }
  }

  lemma SameTime(x: seq<Entry>, y: seq<Entry>, n: int, k: nat, t: int)
    requires Sorted(x) && Sorted(y) && 1 <= k <= |x| && k <= |y| && (n <= 0 || k <= n)
    requires Capped(Since(x, t), n) == Capped(Since(y, t), n)
    ensures x[|x| - k].time >= t <==> y[|y| - k].time >= t
  {
    SinceSorted(x, t, k);
    SinceSorted(y, t, k);
  }

  /** A time before every entry of `s`. */
  function Before(s: seq<Entry>): (t: int)
    ensures forall i :: 0 <= i < |s| ==> s[i].time >= t
  {
    if s == [] then 0
    else
      var t := Before(s[..|s| - 1]);
      assert forall i :: 0 <= i < |s| - 1 ==> s[i] == s[..|s| - 1][i];
      if s[|s| - 1].time < t then s[|s| - 1].time else t
  }

  /** Both sides have the same length, since every entry is counted from a time early enough. */
  lemma SameLength(x: seq<Entry>, y: seq<Entry>, n: int)
    requires forall t :: Capped(Since(x, t), n) == Capped(Since(y, t), n)
    ensures |Tail(x, n)| == |Tail(y, n)|
  {
    var t := Before(x + y);
    assert forall i :: 0 <= i < |x| ==> x[i] == (x + y)[i];
    assert forall i :: 0 <= i < |y| ==> y[i] == (x + y)[|x| + i];
    SinceBounds(x, t);
    SinceBounds(y, t);
    assert Capped(Since(x, t), n) == Capped(Since(y, t), n);
  }

  /** Tail per node, merge, sort and cut gives the times that sorting all rings together and cutting gives. */
  lemma DistributedTail(rings: seq<seq<Entry>>, n: int, x: seq<Entry>, y: seq<Entry>)
    requires forall i :: 0 <= i < |rings| ==> Sorted(rings[i])
    requires Sorted(x) && multiset(x) == multiset(Concat(Tails(rings, n)))
    requires Sorted(y) && multiset(y) == multiset(Concat(rings))
    ensures Times(Tail(x, n)) == Times(Tail(y, n))
  {
    forall t ensures Capped(Since(x, t), n) == Capped(Since(y, t), n) {
      SinceTails(rings, n, t);
      SincePermuted(x, Concat(Tails(rings, n)), t);
      SincePermuted(y, Concat(rings), t);
    }
    SameLength(x, y, n);
    SameTimes(x, y, n);
  }

  /** Over collectors that all answer with their ring's tail, for a tail that a ring can hold: the times of the merge
      are the last ones of everything they ever pushed. `LogGlobal` relates this to those that do not answer. */
  lemma AnsweringTail(histories: seq<seq<Entry>>, answers: seq<seq<Entry>>, n: int, r: seq<Entry>, y: seq<Entry>)
    requires 0 < n <= RING_SIZE && |answers| == |histories|
    requires forall i :: 0 <= i < |histories| ==> Sorted(histories[i])
    requires forall i :: 0 <= i < |histories| ==>
        answers[i] == Tail(histories[i], if 0 < n < RING_SIZE then n else RING_SIZE)
    requires Merged(answers, n, r)
    requires Sorted(y) && multiset(y) == multiset(Concat(histories))
    ensures Times(r) == Times(Tail(y, n))
  {
    assert answers == Tails(histories, n);
    var x :| Sorted(x) && multiset(x) == multiset(Concat(answers)) && r == Tail(x, n);
    DistributedTail(histories, n, x, y);
  }

  /** For any other tail the rings themselves bound the answer: it is everything they hold, or the last n of it. */
  lemma FetchIsAllHeld(rings: seq<seq<Entry>>, n: int, r: seq<Entry>, y: seq<Entry>)
    requires n <= 0 || n > RING_SIZE
    requires forall i :: 0 <= i < |rings| ==> Sorted(rings[i]) && |rings[i]| <= RING_SIZE
    requires Merged(rings, n, r)
    requires Sorted(y) && multiset(y) == multiset(Concat(rings))
    ensures Times(r) == Times(Tail(y, n))
  {
    assert Tails(rings, n) == rings;
    var x :| Sorted(x) && multiset(x) == multiset(Concat(rings)) && r == Tail(x, n);
    DistributedTail(rings, n, x, y);
  }
}
