/** How many copies of a message there are: exactly which steps add one, and which takes one away.  A delivery whose
    goroutine is about to ack it is not counted; what replaces it is. */
module DeliveryCopies {
  import opened Attempts
  import opened Delivery

  function CountIn(copies: seq<Copy>, mid: nat): nat {
    if copies == [] then 0
    else CountIn(copies[..|copies| - 1], mid) + if copies[|copies| - 1].mid == mid then 1 else 0
  }

  predicate CountsTag(s: Sys, mid: nat, tag: nat) {
    tag in s.unacked && s.unacked[tag].mid == mid && !Doomed(s, tag)
  }

  /** The unacked deliveries of the message that are not about to be acked. */
  function LiveTags(s: Sys, mid: nat): set<nat> {
    set tag | tag in s.unacked && CountsTag(s, mid, tag)
  }

  function Copies(s: Sys, mid: nat): nat {
    CountIn(s.queue, mid) + CountIn(s.dlq, mid) + |LiveTags(s, mid)|
  }

  /** The first time it is produced; a stored publish that is not confirmed, or whose delivery is no longer unacked; an
      ack that is lost while its delivery is unacked; the return of a delivery that is about to be acked. */
  predicate Adds(s: Sys, e: Event, mid: nat) {
    match e
    case Produce(m, _) => m == mid && mid !in s.sent
    case Published(pid, stored, confirmed) =>
      && pid in s.works && s.works[pid].phase.Confirming? && s.works[pid].copy.mid == mid
      && stored && (!confirmed || s.works[pid].tag !in s.unacked)
    case Acked(pid, arrives) =>
      In(s, pid, Acking) && s.works[pid].copy.mid == mid && !arrives && s.works[pid].tag in s.unacked
    case Returned(tag) => tag in s.unacked && s.unacked[tag].mid == mid && Doomed(s, tag)
    case _ => false
  }

  /** The end of a successful run, with an accepted release, whose delivery is still unacked. */
  predicate Settles(t: Trigger, s: Sys, e: Event, mid: nat) {
    && e.Handled? && In(s, e.pid, Handling) && s.works[e.pid].copy.mid == mid
    && AfterHandler(t, s.works[e.pid].copy, e.call) == Acking && s.works[e.pid].tag in s.unacked
  }

  lemma CountSnoc(copies: seq<Copy>, c: Copy, mid: nat)
    ensures CountIn(copies + [c], mid) == CountIn(copies, mid) + if c.mid == mid then 1 else 0
  {
    assert (copies + [c])[..|copies|] == copies;
  }

  lemma {:induction false} CountConcat(a: seq<Copy>, b: seq<Copy>, mid: nat)
    ensures CountIn(a + b, mid) == CountIn(a, mid) + CountIn(b, mid)
  {
    if b == [] {
      assert a + b == a;
    } else {
      assert (a + b)[..|a + b| - 1] == a + b[..|b| - 1];
      CountConcat(a, b[..|b| - 1], mid);
    }
  }

  lemma CountWithout(copies: seq<Copy>, i: nat, mid: nat)
    requires i < |copies|
    ensures CountIn(copies, mid) == CountIn(Without(copies, i), mid) + if copies[i].mid == mid then 1 else 0
  {
    hide CountIn;
    var a, b := copies[..i], copies[i + 1..];
    assert copies == a + [copies[i]] + b;
    CountConcat(a + [copies[i]], b, mid);
    CountSnoc(a, copies[i], mid);
    CountConcat(a, b, mid);
  }

  /** No tag but `tag` begins or ceases to count. */
  lemma OneTag(s: Sys, u: Sys, mid: nat, tag: nat)
    requires forall x :: x != tag ==> (CountsTag(u, mid, x) <==> CountsTag(s, mid, x))
    ensures |LiveTags(u, mid)| + (if CountsTag(s, mid, tag) then 1 else 0)
         == |LiveTags(s, mid)| + (if CountsTag(u, mid, tag) then 1 else 0)
  {
    hide CountsTag, LiveTags;
    var a, b := LiveTags(s, mid), LiveTags(u, mid);
    forall x ensures (x in a <==> CountsTag(s, mid, x)) && (x in b <==> CountsTag(u, mid, x)) {
      Live(s, mid, x);
      Live(u, mid, x);
    }
    assert a - {tag} == b - {tag};
    assert |a| == |a - {tag}| + if tag in a then 1 else 0;
    assert |b| == |b - {tag}| + if tag in b then 1 else 0;
  }

  lemma Live(s: Sys, mid: nat, tag: nat)
    ensures tag in LiveTags(s, mid) <==> CountsTag(s, mid, tag)
  {
  }

  /** The goroutines of all tags but `tag` are in the same places. */
  predicate SameWorks(s: Sys, u: Sys, tag: nat) {
    && (forall p :: p in s.works && s.works[p].tag != tag && s.works[p].phase == Acking
         ==> p in u.works && u.works[p] == s.works[p])
    && (forall p :: p in u.works && u.works[p].tag != tag && u.works[p].phase == Acking
         ==> p in s.works && u.works[p] == s.works[p])
  }

  lemma SameDoom(s: Sys, u: Sys, tag: nat, other: nat)
    requires SameWorks(s, u, tag) && other != tag
    ensures Doomed(u, other) <==> Doomed(s, other)
  {
    if Doomed(s, other) {
      var p :| p in s.works && s.works[p].tag == other && s.works[p].phase == Acking;
      assert p in u.works && u.works[p].tag == other && u.works[p].phase == Acking;
    }
    if Doomed(u, other) {
      var p :| p in u.works && u.works[p].tag == other && u.works[p].phase == Acking;
      assert p in s.works && s.works[p].tag == other && s.works[p].phase == Acking;
    }
  }

  /** Apart from `tag` nothing changes in the unacked deliveries and what is about to happen to them. */
  lemma OthersSame(s: Sys, u: Sys, mid: nat, tag: nat)
    requires SameWorks(s, u, tag)
    requires forall x | x != tag ::
        (x in u.unacked <==> x in s.unacked) && (x in s.unacked ==> u.unacked[x] == s.unacked[x])
    ensures |LiveTags(u, mid)| + (if CountsTag(s, mid, tag) then 1 else 0)
         == |LiveTags(s, mid)| + (if CountsTag(u, mid, tag) then 1 else 0)
  {
    forall x | x != tag ensures CountsTag(u, mid, x) <==> CountsTag(s, mid, x) {
      SameDoom(s, u, tag, x);
    }
    OneTag(s, u, mid, tag);
  }

  /** The tag whose delivery the step is about. */
  function TagOf(s: Sys, e: Event): nat {
    match e
    case Deliver(_) => s.nextTag
    case Begin(_, tag) => tag
    case Returned(tag) => tag
    case Handled(pid, _) => WorkTag(s, pid)
    case Waited(pid, _) => WorkTag(s, pid)
    case Published(pid, _, _) => WorkTag(s, pid)
    case Acked(pid, _) => WorkTag(s, pid)
    case Nacked(pid, _) => WorkTag(s, pid)
    case _ => 0
  }

  function WorkTag(s: Sys, pid: nat): nat { if pid in s.works then s.works[pid].tag else 0 }

  predicate OfWork(e: Event) { e.Handled? || e.Waited? || e.Published? || e.Acked? || e.Nacked? }

  ghost predicate ChangesOneTag(s: Sys, u: Sys, tag: nat) {
    && SameWorks(s, u, tag)
    && (forall x | x != tag :: (x in u.unacked <==> x in s.unacked)
         && (x in s.unacked ==> u.unacked[x] == s.unacked[x]))
  }

  lemma WorkTagOnly(t: Trigger, s: Sys, e: Event)
    requires OfWork(e) && OneEach(s)
    ensures ChangesOneTag(s, Step(t, s, e), TagOf(s, e))
  {
    WorkSameWorks(t, s, e);
    hide AfterHandler, NextCopy, SameWorks;
  }

  lemma WorkSameWorks(t: Trigger, s: Sys, e: Event)
    requires OfWork(e) && OneEach(s)
    ensures SameWorks(s, Step(t, s, e), TagOf(s, e))
  {
    hide Step, OneEach;
    WorksElsewhere(t, s, e);
    if e.pid in s.works { ElsewhereOtherTag(s, Step(t, s, e), e.pid); }
  }

  /** Only the event's own goroutine changes. */
  lemma WorksElsewhere(t: Trigger, s: Sys, e: Event)
    requires OfWork(e)
    ensures var u := Step(t, s, e);
            && u.works.Keys <= s.works.Keys && u.works - {e.pid} == s.works - {e.pid}
            && (e.pid in u.works ==> u.works[e.pid].tag == s.works[e.pid].tag)
            && (e.pid !in s.works ==> u.works == s.works)
  {
    hide AfterHandler, NextCopy, Slots;
  }

  lemma ElsewhereOtherTag(s: Sys, u: Sys, pid: nat)
    requires OneEach(s) && pid in s.works && u.works.Keys <= s.works.Keys && u.works - {pid} == s.works - {pid}
    requires pid in u.works ==> u.works[pid].tag == s.works[pid].tag
    ensures SameWorks(s, u, s.works[pid].tag)
  {
    forall p | p != pid ensures (p in u.works <==> p in s.works) && (p in s.works ==> u.works[p] == s.works[p]) {
      assert p in u.works - {pid} <==> p in u.works;
      assert p in s.works - {pid} <==> p in s.works;
      assert p in s.works ==> (s.works - {pid})[p] == s.works[p] && (u.works - {pid})[p] == u.works[p];
    }
  }

  lemma OtherTagOnly(t: Trigger, s: Sys, e: Event)
    requires !OfWork(e) && TagsOld(s)
    ensures ChangesOneTag(s, Step(t, s, e), TagOf(s, e))
  {
    hide Slots;
  }

  lemma StepTag(t: Trigger, s: Sys, e: Event, mid: nat)
    requires TagsOld(s) && OneEach(s)
    ensures var u := Step(t, s, e); var tag := TagOf(s, e);
            |LiveTags(u, mid)| + (if CountsTag(s, mid, tag) then 1 else 0)
            == |LiveTags(s, mid)| + (if CountsTag(u, mid, tag) then 1 else 0)
  {
    hide Step, TagOf, LiveTags, CountsTag, SameWorks;
    if OfWork(e) { WorkTagOnly(t, s, e); } else { OtherTagOnly(t, s, e); }
    OthersSame(s, Step(t, s, e), mid, TagOf(s, e));
  }

  /** The one worker of a delivery says whether it is about to be acked. */
  lemma DoomedBy(s: Sys, pid: nat)
    requires OneEach(s) && pid in s.works
    ensures Doomed(s, s.works[pid].tag) <==> s.works[pid].phase == Acking
  {
  }

  /** The change of the count that the tag of the step makes, beside what it puts into the queues. */
  function TagChange(s: Sys, u: Sys, e: Event, mid: nat): int {
    (if CountsTag(u, mid, TagOf(s, e)) then 1 else 0) - if CountsTag(s, mid, TagOf(s, e)) then 1 else 0
  }

  function QueueChange(s: Sys, u: Sys, mid: nat): int {
    CountIn(u.queue, mid) + CountIn(u.dlq, mid) - CountIn(s.queue, mid) - CountIn(s.dlq, mid)
  }

  function Change(t: Trigger, s: Sys, e: Event, mid: nat): int {
    if Adds(s, e, mid) then 1 else if Settles(t, s, e, mid) then -1 else 0
  }

  lemma DeliverChange(t: Trigger, s: Sys, e: Event, mid: nat)
    requires e.Deliver? && TagsOld(s)
    ensures var u := Step(t, s, e); QueueChange(s, u, mid) + TagChange(s, u, e, mid) == 0
  {
    if e.index < |s.queue| {
      CountWithout(s.queue, e.index, mid);
      assert !Doomed(Step(t, s, e), s.nextTag);
    }
    hide CountIn;
  }

  lemma RequeueChange(s: Sys, u: Sys, tag: nat, mid: nat)
    requires tag in s.unacked && u.queue == s.queue + [s.unacked[tag]] && u.dlq == s.dlq && tag !in u.unacked
    ensures QueueChange(s, u, mid) - (if CountsTag(s, mid, tag) then 1 else 0)
         == if s.unacked[tag].mid == mid && Doomed(s, tag) then 1 else 0
  {
    CountSnoc(s.queue, s.unacked[tag], mid);
    hide CountIn;
  }

  lemma PublishedChange(t: Trigger, s: Sys, e: Event, mid: nat)
    requires e.Published? && OneEach(s) && Agree(s)
    ensures var u := Step(t, s, e); QueueChange(s, u, mid) + TagChange(s, u, e, mid) == Change(t, s, e, mid)
  {
    if e.pid in s.works && s.works[e.pid].phase.Confirming? && (e.confirmed ==> e.stored) {
      var w := s.works[e.pid];
      var u := Step(t, s, e);
      CountSnoc(s.queue, NextCopy(w.copy, w.phase.reason), mid);
      CountSnoc(s.dlq, NextCopy(w.copy, w.phase.reason), mid);
      DoomedBy(s, e.pid);
      StillOneEach(t, s, e);
      DoomedBy(u, e.pid);
    }
    hide CountIn, AfterHandler, Publishing;
  }

  lemma StillOneEach(t: Trigger, s: Sys, e: Event)
    requires OneEach(s) && (e.Published? || e.Handled? || e.Waited?)
    ensures OneEach(Step(t, s, e))
  {
    hide AfterHandler, NextCopy;
  }

  lemma WorkChange(t: Trigger, s: Sys, e: Event, mid: nat)
    requires (e.Handled? || e.Waited?) && OneEach(s) && Agree(s)
    ensures var u := Step(t, s, e); QueueChange(s, u, mid) + TagChange(s, u, e, mid) == Change(t, s, e, mid)
  {
    hide CountIn, AfterHandler;
    if e.pid in s.works {
      DoomedBy(s, e.pid);
      StillOneEach(t, s, e);
      DoomedBy(Step(t, s, e), e.pid);
    }
  }

  lemma AckChange(t: Trigger, s: Sys, e: Event, mid: nat)
    requires e.Acked? && OneEach(s) && Agree(s)
    ensures var u := Step(t, s, e); QueueChange(s, u, mid) + TagChange(s, u, e, mid) == Change(t, s, e, mid)
  {
    hide CountIn;
    if In(s, e.pid, Acking) {
      DoomedBy(s, e.pid);
      assert !Doomed(Step(t, s, e), s.works[e.pid].tag);
    }
  }

  lemma NackChange(t: Trigger, s: Sys, e: Event, mid: nat)
    requires e.Nacked? && OneEach(s) && Agree(s)
    ensures var u := Step(t, s, e); QueueChange(s, u, mid) + TagChange(s, u, e, mid) == 0
  {
    if In(s, e.pid, Nacking) {
      var u, tag := Step(t, s, e), s.works[e.pid].tag;
      DoomedBy(s, e.pid);
      assert !Doomed(u, tag);
      if e.arrives && tag in s.unacked { RequeueChange(s, u, tag, mid); }
    }
    hide CountIn;
  }

  lemma BeginChange(t: Trigger, s: Sys, e: Event, mid: nat)
    requires e.Begin? && OneEach(s)
    ensures var u := Step(t, s, e); QueueChange(s, u, mid) + TagChange(s, u, e, mid) == 0
  {
    hide CountIn, Slots;
    var u := Step(t, s, e);
    if u != s {
      assert !Doomed(s, e.tag) && !Doomed(u, e.tag);
    }
  }

  lemma ReturnedChange(t: Trigger, s: Sys, e: Event, mid: nat)
    requires e.Returned?
    ensures var u := Step(t, s, e); QueueChange(s, u, mid) + TagChange(s, u, e, mid) == Change(t, s, e, mid)
  {
    if e.tag in s.unacked { RequeueChange(s, Step(t, s, e), e.tag, mid); }
    hide CountIn;
  }

  lemma ProduceChange(t: Trigger, s: Sys, e: Event, mid: nat)
    requires e.Produce? || e.Resubscribe?
    ensures var u := Step(t, s, e); QueueChange(s, u, mid) + TagChange(s, u, e, mid) == Change(t, s, e, mid)
  {
    if e.Produce? { CountSnoc(s.queue, Copy(e.mid, e.headers), mid); }
    hide CountIn;
    var u := Step(t, s, e);
    assert Doomed(u, TagOf(s, e)) <==> Doomed(s, TagOf(s, e));
  }

  /** Every step changes the number of copies of every message by exactly this: it grows by one in the cases of `Adds`,
      shrinks by one when a run succeeds, and is the same otherwise. */
  lemma CopiesExactly(t: Trigger, s: Sys, e: Event, mid: nat)
    requires TagsOld(s) && OneEach(s) && Agree(s)
    ensures Copies(Step(t, s, e), mid) == Copies(s, mid) + Change(t, s, e, mid)
    ensures Copies(Step(t, s, e), mid) > Copies(s, mid) <==> Adds(s, e, mid)
  {
    hide Step, CountIn, LiveTags, CountsTag, TagOf, Adds, Settles;
    StepTag(t, s, e, mid);
    assert QueueChange(s, Step(t, s, e), mid) + TagChange(s, Step(t, s, e), e, mid) == Change(t, s, e, mid) by {
      match e
      case Deliver(_) => DeliverChange(t, s, e, mid); Elsewhere(t, s, e, mid);
      case Begin(_, _) => BeginChange(t, s, e, mid); Elsewhere(t, s, e, mid);
      case Handled(_, _) => WorkChange(t, s, e, mid);
      case Waited(_, _) => WorkChange(t, s, e, mid);
      case Published(_, _, _) => PublishedChange(t, s, e, mid);
      case Acked(_, _) => AckChange(t, s, e, mid);
      case Nacked(_, _) => NackChange(t, s, e, mid); Elsewhere(t, s, e, mid);
      case Returned(_) => ReturnedChange(t, s, e, mid);
      case _ => ProduceChange(t, s, e, mid);
    }
  }

  lemma Elsewhere(t: Trigger, s: Sys, e: Event, mid: nat)
    requires e.Deliver? || e.Begin? || e.Nacked?
    ensures Change(t, s, e, mid) == 0
  {
  }

  lemma NotBoth(t: Trigger, s: Sys, e: Event, mid: nat)
    ensures !(Adds(s, e, mid) && Settles(t, s, e, mid))
  {
  }
}
