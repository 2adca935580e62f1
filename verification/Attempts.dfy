/** How a message carries its number of attempts from one delivery to the next (mqsvc/rabbitmq.go), and how a handling
    ends (mqsvc/worker.go).  Go's int is 64 bits wide, the header's int32 is 32. */
module Attempts {
  import opened Options
  import Reconcile

  type Trigger = Reconcile.Trigger

  const TWO31: int := 0x8000_0000
  const TWO63: int := 0x8000_0000_0000_0000
  const TWO64: int := 0x1_0000_0000_0000_0000

  type Int32 = n: int | -0x8000_0000 <= n < 0x8000_0000
  type Int64 = n: int | -0x8000_0000_0000_0000 <= n < 0x8000_0000_0000_0000

  /** int32(n) */
  function Wrap32(n: int): (r: Int32)
    ensures -TWO31 <= n < TWO31 ==> r == n
    ensures (r - n) % 0x1_0000_0000 == 0
  {
    (n + TWO31) % 0x1_0000_0000 - TWO31
  }

  function Wrap64(n: int): (r: Int64)
    ensures -TWO63 <= n < TWO63 ==> r == n
    ensures n == TWO63 ==> r == -TWO63
  {
    (n + TWO63) % TWO64 - TWO63
  }

  // ----- headers -----

  const ATTEMPTS: string := "x-faas-attempts"
  const REASON: string := "x-faas-reason"

  /** The dynamic types that attemptsFromHeaders tells apart. */
  datatype Header = OfInt(native: Int64) | OfInt32(narrow: Int32) | OfInt64(wide: Int64) | OfText(text: string) | Other

  /** The digits read so far make `acc`; None for a syntax error, TWO64 for a value that leaves the range first. */
  function ScanDigits(d: string, acc: nat): (r: Option<nat>)
    ensures r.Some? && acc < TWO64 ==> r.value <= TWO64
  {
    if d == "" then Some(acc)
    else if !('0' <= d[0] <= '9') then None
    else
      var v := acc * 10 + (d[0] as int - '0' as int);
      if v >= TWO64 then Some(TWO64) else ScanDigits(d[1..], v)
  }

  /** The number that strconv.Atoi returns beside its error: 0 for a syntax error, the nearest int out of range. */
  function Atoi(s: string): Int64 {
    var signed := s != "" && (s[0] == '-' || s[0] == '+');
    var digits := if signed then s[1..] else s;
    if digits == "" then 0
    else
      match ScanDigits(digits, 0)
      case None => 0
      case Some(value) =>
        var v: int := value;
        if signed && s[0] == '-' then (if v >= TWO63 then -TWO63 else -v)
        else if v >= TWO63 then TWO63 - 1 else v
  }

  function FromHeaders(headers: map<string, Header>): Int64 {
    if ATTEMPTS !in headers then 0
    else
      match headers[ATTEMPTS]
      case OfInt(n) => n
      case OfInt32(n) => n
      case OfInt64(n) => n
      case OfText(text) => Atoi(text)
      case Other => 0
  }

  function Publishing(headers: map<string, Header>, attempts: int, reason: string): map<string, Header> {
    var counted := headers[ATTEMPTS := OfInt32(Wrap32(attempts))];
    if reason == "" then counted else counted[REASON := OfText(reason)]
  }

  /** publishingForDelivery: the delivery's own header table is copied, not shared. */
  method PublishingForDelivery(headers: map<string, Header>, attempts: int, reason: string)
      returns (r: map<string, Header>)
    ensures r == Publishing(headers, attempts, reason)
  {
    r := map[];
    var rest := headers.Keys;
    while rest != {}
      invariant rest <= headers.Keys && r.Keys == headers.Keys - rest
      invariant forall k :: k in r ==> r[k] == headers[k]
      decreases |rest|
    {
      var k :| k in rest;
      rest := rest - {k};
      r := r[k := headers[k]];
    }
    assert r == headers;
    r := r[ATTEMPTS := OfInt32(Wrap32(attempts))];
    if reason != "" {
      r := r[REASON := OfText(reason)];
    }
  }

  /** The count survives the header exactly in the range of int32; no other header but the reason changes. */
  lemma CountRoundTrip(headers: map<string, Header>, attempts: int, reason: string)
    ensures FromHeaders(Publishing(headers, attempts, reason)) == attempts <==> -TWO31 <= attempts < TWO31
    ensures forall k :: k != ATTEMPTS && (k != REASON || reason == "") ==>
              (k in Publishing(headers, attempts, reason) <==> k in headers)
              && (k in headers ==> Publishing(headers, attempts, reason)[k] == headers[k])
  {
  }

  // ----- how a handling ends -----

  /** invokeRuntime: its error and what the two errors.Is tests find. */
  datatype Invocation = Succeeded | Failed(err: string, deadline: bool, canceled: bool)

  /** What the gateway and the runtime answer during one HandleMessage. */
  datatype Call = AcquireFailed(err: string) | Ran(invocation: Invocation, releaseErr: Option<string>)

  /** MessageResult. */
  datatype Result = Ack | Dlq(reason: string) | Retry(reason: string)

  predicate ShouldDlq(t: Trigger, attempts: Int64) {
    t.maxAttempts > 0 && Wrap64(attempts + 1) >= t.maxAttempts && t.dlq != ""
  }

  function Status(i: Invocation): string {
    if i.Succeeded? then "success" else if i.deadline then "timeout" else if i.canceled then "abandoned" else "error"
  }

  function Verdict(t: Trigger, attempts: Int64, call: Call): Result {
    match call
    case AcquireFailed(err) => if ShouldDlq(t, attempts) then Dlq(err) else Retry(err)
    case Ran(_, Some(reason)) => Retry(reason)
    case Ran(Succeeded, None) => Ack
    case Ran(Failed(err, _, _), None) => if ShouldDlq(t, attempts) then Dlq(err) else Retry(err)
  }

  /** A message is acked exactly after a successful run whose release was accepted, and dead-lettered exactly when its
      attempts are used up and no release failed: a failed release bypasses that test. */
  lemma VerdictMeans(t: Trigger, attempts: Int64, call: Call)
    ensures Verdict(t, attempts, call).Ack? <==> call == Ran(Succeeded, None)
    ensures Verdict(t, attempts, call).Dlq?
            <==> ShouldDlq(t, attempts) && call != Ran(Succeeded, None) && (call.Ran? ==> call.releaseErr == None)
  {
  }

  // ----- bounded attempts -----

  /** Where a message stands after some handlings. */
  datatype End = Queued(attempts: Int64) | Acked | DeadLettered

  function NextAttempts(attempts: Int64): (r: Int64)
    ensures r == FromHeaders(Publishing(map[], Wrap64(attempts + 1), ""))
  {
    Wrap32(Wrap64(attempts + 1))
  }

  /** The message goes on in the trigger's queue: by a retry, or because its dead letters go there. */
  predicate ComesBack(t: Trigger, result: Result) {
    result.Retry? || (result.Dlq? && t.dlq == t.queue)
  }

  /** The handlings of a message whose confirms and acks succeed: how many there are, and how it ends. */
  function Handle(t: Trigger, attempts: Int64, calls: seq<Call>): (nat, End)
    decreases |calls|
  {
    if calls == [] then (0, Queued(attempts))
    else
      var result := Verdict(t, attempts, calls[0]);
      if ComesBack(t, result) then
        var (n, end) := Handle(t, NextAttempts(attempts), calls[1..]);
        (n + 1, end)
      else (1, if result.Ack? then Acked else DeadLettered)
  }

  predicate ReleasesSucceed(calls: seq<Call>) {
    forall i :: 0 <= i < |calls| && calls[i].Ran? ==> calls[i].releaseErr == None
  }

  function Bound(t: Trigger, attempts: Int64): nat {
    if t.maxAttempts - attempts > 1 then t.maxAttempts - attempts else 1
  }

  /** Something ends the retries of a message. */
  predicate Limited(t: Trigger) {
    t.maxAttempts > 0 && t.dlq != ""
  }

  /** What the limit must satisfy: the count fits the header for as long as it is below the limit, and adding one to it
      does not leave Go's int. */
  predicate Countable(t: Trigger, attempts: Int64) {
    attempts < TWO63 - 1 && (t.maxAttempts <= TWO31 || attempts + 1 >= t.maxAttempts)
  }

  ghost predicate AlwaysEnds(t: Trigger, attempts: Int64) {
    forall calls :: ReleasesSucceed(calls) && |calls| >= Bound(t, attempts)
      ==> Handle(t, attempts, calls).0 <= Bound(t, attempts) && !Handle(t, attempts, calls).1.Queued?
  }

  /** Below the limit the header does not lower the count, not even one far below the range of int32. */
  lemma NextIsHigher(attempts: Int64)
    requires attempts + 1 < TWO31
    ensures attempts + 1 <= NextAttempts(attempts) < TWO31
  {
  }

  lemma {:induction false} EndsInTime(t: Trigger, attempts: Int64, calls: seq<Call>)
    requires Limited(t) && t.dlq != t.queue && Countable(t, attempts)
    requires ReleasesSucceed(calls) && |calls| >= Bound(t, attempts)
    ensures Handle(t, attempts, calls).0 <= Bound(t, attempts) && !Handle(t, attempts, calls).1.Queued?
    decreases |calls|
  {
    if Verdict(t, attempts, calls[0]).Retry? {
      assert calls[0].Ran? ==> calls[0].releaseErr == None;
      assert attempts + 1 < t.maxAttempts <= TWO31;
      NextIsHigher(attempts);
      EndsInTime(t, NextAttempts(attempts), calls[1..]);
    }
  }

  /** The function fails, and nothing else does. */
  const FAILS: Call := Ran(Failed("", false, false), None)

  function Failures(n: nat): (calls: seq<Call>)
    ensures |calls| == n && ReleasesSucceed(calls)
  {
    seq(n, i => FAILS)
  }

  /** A count from which a failing message is retried for ever: there is nothing to end the retries, or the limit is
      above the range of int32, where the count in the header never reaches it. */
  predicate Endless(t: Trigger, attempts: Int64) {
    !Limited(t) || (t.maxAttempts > TWO31 && attempts + 1 < t.maxAttempts)
  }

  lemma EndlessGoesOn(t: Trigger, attempts: Int64)
    requires t.maxAttempts < TWO63 && Endless(t, attempts)
    ensures Verdict(t, attempts, FAILS).Retry? && Endless(t, NextAttempts(attempts))
  {
  }

  lemma {:induction false} NeverEnds(t: Trigger, attempts: Int64, calls: seq<Call>)
    requires t.maxAttempts < TWO63 && (Endless(t, attempts) || t.dlq == t.queue)
    requires forall i :: 0 <= i < |calls| ==> calls[i] == FAILS
    ensures Handle(t, attempts, calls).1.Queued? && Handle(t, attempts, calls).0 == |calls|
    decreases |calls|
  {
    if calls != [] {
      if Endless(t, attempts) { EndlessGoesOn(t, attempts); }
      NeverEnds(t, NextAttempts(attempts), calls[1..]);
    }
  }

  /** For the trigger by itself: a message that starts at count a is handled at most max(1, MaxAttempts - a) times and
      ends acked or dead-lettered, whatever the runs do, if and only if there is a limit with a dead-letter queue other
      than the trigger's own, and the counts are countable. */
  lemma BoundedAttempts(t: Trigger, attempts: Int64)
    requires t.maxAttempts < TWO63
    ensures AlwaysEnds(t, attempts) <==> Limited(t) && t.dlq != t.queue && Countable(t, attempts)
  {
    if Limited(t) && t.dlq != t.queue && Countable(t, attempts) {
      forall calls | ReleasesSucceed(calls) && |calls| >= Bound(t, attempts)
        ensures Handle(t, attempts, calls).0 <= Bound(t, attempts) && !Handle(t, attempts, calls).1.Queued?
      {
        EndsInTime(t, attempts, calls);
      }
    } else {
      var calls := Failures(Bound(t, attempts));
      if Endless(t, attempts) || t.dlq == t.queue {
        NeverEnds(t, attempts, calls);
      } else {
        Overflows(t, attempts, calls);
      }
      assert Handle(t, attempts, calls).1.Queued?;
    }
  }

  /** The largest int plus one is negative, so the first handling does not end. */
  lemma Overflows(t: Trigger, attempts: Int64, calls: seq<Call>)
    requires t.maxAttempts > 0 && attempts == TWO63 - 1 && calls == [FAILS]
    ensures Verdict(t, attempts, FAILS).Retry? && Handle(t, attempts, calls).1.Queued?
  {
    assert calls[1..] == [];
    assert Handle(t, NextAttempts(attempts), []).1.Queued?;
  }

  /** Releases that fail again and again keep a message in the queue past any limit. */
  lemma {:induction false} FailedReleasesNeverEnd(t: Trigger, attempts: Int64, calls: seq<Call>)
    requires forall i :: 0 <= i < |calls| ==> calls[i].Ran? && calls[i].releaseErr.Some?
    ensures Handle(t, attempts, calls).1.Queued? && Handle(t, attempts, calls).0 == |calls|
    decreases |calls|
  {
    if calls != [] { FailedReleasesNeverEnd(t, NextAttempts(attempts), calls[1..]); }
  }
}
