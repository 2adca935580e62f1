/** scalersvc/main.go: the decision of the autoscaler, and what happens when it is applied again and again.
    Percentages are exact: reals stand for the float64 of the source. */
module Autoscaler {

  datatype Policy = Policy(target: int, upUtil: real, upP99: real, upErr: real, downUtil: real)

  datatype Action = ScaleUp | ScaleDown | Stay

  /** What one evaluation looks at besides the number of instances. */
  datatype Load = Load(pol: Policy, min: int, max: int, busy: nat, queued: nat, p99: real, err: real)

  function CeilDiv(n: int, d: int): (q: int)
    requires d > 0
    ensures n > 0 ==> d * (q - 1) < n <= d * q
    ensures n <= 0 ==> q == 0
  {
    if n <= 0 then 0 else (n + d - 1) / d
  }

  /** The instances that the busy and the queued requests ask for. */
  function Need(c: Load): (need: int)
    ensures need >= 0 && (need == 0 <==> c.busy + c.queued == 0)
    ensures c.pol.target >= 1 && c.busy + c.queued > 0 ==>
              c.pol.target * (need - 1) < c.busy + c.queued <= c.pol.target * need
    ensures c.pol.target <= 0 ==> need == c.busy + c.queued
  {
    CeilDiv(c.busy + c.queued, if c.pol.target <= 0 then 1 else c.pol.target)
  }

  function Util(busy: nat, total: nat): real
    requires total > 0
  {
    busy as real / total as real * 100.0
  }

  predicate Hot(c: Load, total: nat)
    requires total > 0
  {
    Util(c.busy, total) >= c.pol.upUtil || c.p99 > c.pol.upP99 || c.err >= c.pol.upErr
  }

  function Wanted(c: Load, total: nat): int {
    var need := Need(c);
    if total == 0 then need
    else
      var raised := if Hot(c, total) && need <= total then total + 1 else need;
      if c.queued == 0 && Util(c.busy, total) >= c.pol.downUtil && raised < total then total else raised
  }

  function Desired(c: Load, total: nat): (d: int)
    ensures c.min <= c.max ==> c.min <= d <= c.max
  {
    var atLeast := if Wanted(c, total) < c.min then c.min else Wanted(c, total);
    if atLeast > c.max then c.max else atLeast
  }

  function Decide(c: Load, total: nat): Action {
    if Desired(c, total) > total then ScaleUp
    else if Desired(c, total) < total && total - c.busy > 0 then ScaleDown
    else Stay
  }

  datatype Decision = Decision(time: int, action: Action, busy: nat, idle: nat, desired: int)

  /** The scaler service: its policy, its limits, and the last decision of each function. */
  class Scaler {
    const pol: Policy
    const minReplicas: int
    const maxReplicas: int
    var decisions: map<string, Decision>

    constructor (pol: Policy, minReplicas: int, maxReplicas: int, decisions: map<string, Decision>)
      ensures this.pol == pol && this.minReplicas == minReplicas && this.maxReplicas == maxReplicas
      ensures this.decisions == decisions
    {
      this.pol, this.minReplicas, this.maxReplicas, this.decisions := pol, minReplicas, maxReplicas, decisions;
    }

    function LoadOf(busy: nat, queued: nat, p99: real, err: real): Load {
      Load(pol, minReplicas, maxReplicas, busy, queued, p99, err)
    }

    method DesiredReplicas(total: nat, busy: nat, queued: nat, p99: real, err: real) returns (desired: int)
      ensures desired == Desired(LoadOf(busy, queued, p99, err), total)
    {
      var target := pol.target;
      if target <= 0 {
        target := 1;
      }
      desired := CeilDiv(busy + queued, target);
      if total > 0 {
        var util := busy as real / total as real * 100.0;
        if (util >= pol.upUtil || p99 > pol.upP99 || err >= pol.upErr) && desired <= total {
          desired := total + 1;
        }
        if queued == 0 && util >= pol.downUtil && desired < total {
          desired := total;
        }
      }
      if desired < minReplicas {
        desired := minReplicas;
      }
      if desired > maxReplicas {
        desired := maxReplicas;
      }
    }

    /** evaluate: the decision is recorded for this function alone, and returned for the gateway. */
    method Evaluate(func: string, now: int, busy: nat, idle: nat, queued: nat, p99: real, err: real)
        returns (action: Action)
      modifies this
      ensures action == Decide(LoadOf(busy, queued, p99, err), busy + idle)
      ensures decisions == old(decisions)[func := Decision(now, action, busy, idle,
                                                           Desired(LoadOf(busy, queued, p99, err), busy + idle))]
    {
      var total := busy + idle;
      var desired := DesiredReplicas(total, busy, queued, p99, err);
      if desired > total {
        action := ScaleUp;
      } else if desired < total && idle > 0 {
        action := ScaleDown;
      } else {
        action := Stay;
      }
      decisions := decisions[func := Decision(now, action, busy, idle, desired)];
    }
  }

  // ----- what is decided, in the load and the policy alone -----

  /** How many requests each instance is for; a target that is not positive counts as 1. */
  function Target(c: Load): int { if c.pol.target >= 1 then c.pol.target else 1 }

  /** The busy and the queued requests are more than this many instances are for. */
  predicate TooFew(c: Load, total: int) { c.busy + c.queued > Target(c) * total }

  /** One of the three thresholds of scaling up is reached or, for the latency, exceeded. */
  predicate AnyHot(c: Load, total: nat)
    requires total > 0
  {
    c.busy as real / total as real * 100.0 >= c.pol.upUtil || c.p99 > c.pol.upP99 || c.err >= c.pol.upErr
  }

  /** The utilisation keeps the instances that there are; not looked at while requests wait. */
  predicate Holds(c: Load, total: nat)
    requires total > 0
  {
    c.queued == 0 && c.busy as real / total as real * 100.0 >= c.pol.downUtil
  }

  lemma NeedIsMore(c: Load, total: int)
    requires total >= 0
    ensures Need(c) > total <==> TooFew(c, total)
  {
    var target, n, need := Target(c), c.busy + c.queued, Need(c);
    if need > total {
      if n > 0 { Multiplied(target, total, need - 1); }
    } else {
      Multiplied(target, need, total);
    }
  }

  lemma Multiplied(target: int, a: int, b: int)
    requires target >= 1 && a <= b
    ensures target * a <= target * b
  {
  }

  /** The scaler adds an instance exactly if it is below the maximum and: it is below the minimum, or there are too few
      instances for the requests, or there is one at least and a threshold is hot. */
  lemma ScalesUpExactly(c: Load, total: nat)
    requires c.min <= c.max
    ensures Decide(c, total) == ScaleUp
            <==> total < c.max && (total < c.min || TooFew(c, total) || (total > 0 && AnyHot(c, total)))
  {
    NeedIsMore(c, total);
  }

  /** It removes one exactly if some instance is idle, it is above the minimum, and: it is above the maximum, or no
      threshold is hot, the utilisation does not hold the instances, and one less is enough for the requests. */
  lemma ScalesDownExactly(c: Load, total: nat)
    requires c.min <= c.max
    ensures Decide(c, total) == ScaleDown
            <==> total > c.busy && total > c.min
                 && (total > c.max
                     || (total > 0 && !AnyHot(c, total) && !Holds(c, total) && !TooFew(c, total - 1)))
  {
    if total > 0 {
      NeedIsMore(c, total - 1);
      NeedIsMore(c, total);
    }
  }

  /** What is wanted before the limits apply: one more when a threshold is hot and there are enough for the requests;
      what there is when the utilisation holds more than enough; and otherwise the least number that is enough. */
  predicate IsWanted(c: Load, total: nat, wanted: int) {
    if total > 0 && AnyHot(c, total) && !TooFew(c, total) then wanted == total + 1
    else if total > 0 && Holds(c, total) && !TooFew(c, total - 1) then wanted == total
    else wanted >= 0 && !TooFew(c, wanted) && (wanted > 0 ==> TooFew(c, wanted - 1))
  }

  lemma DesiredMeans(c: Load, total: nat) returns (wanted: int)
    requires c.min <= c.max
    ensures IsWanted(c, total, wanted)
    ensures Desired(c, total) == if wanted < c.min then c.min else if wanted > c.max then c.max else wanted
  {
    wanted := Wanted(c, total);
    var need := Need(c);
    NeedIsMore(c, need);
    if need > 0 { NeedIsMore(c, need - 1); }
    if total > 0 {
      NeedIsMore(c, total);
      NeedIsMore(c, total - 1);
    }
  }

  // ----- the closed loop: each decision adds or removes one idle instance -----

  function Next(c: Load, total: nat): nat {
    match Decide(c, total)
    case ScaleUp => total + 1
    case ScaleDown => total - 1
    case Stay => total
  }

  function Iterate(c: Load, total: nat, k: nat): nat
    decreases k
  {
    if k == 0 then total else Iterate(c, Next(c, total), k - 1)
  }

  /** One more instance never raises the utilisation, and never takes it below half. */
  lemma UtilAtMostHalves(busy: nat, total: nat)
    requires total > 0
    ensures Util(busy, total + 1) <= Util(busy, total) <= 2.0 * Util(busy, total + 1)
  {
    var n, x, y := total as real, busy as real / total as real, busy as real / (total + 1) as real;
    assert x * n == y * (n + 1.0) == y * n + y;
    Product(x, y, n);
  }

  lemma Product(x: real, y: real, n: real)
    requires n >= 1.0 && y >= 0.0 && x * n == y * n + y
    ensures y <= x <= 2.0 * y
  {
    assert (x - y) * n == y;
    Quotient(x - y, n);
    assert (2.0 * y - x) * n == y * (n - 1.0);
    Quotient(2.0 * y - x, n);
  }

  lemma Quotient(a: real, n: real)
    requires n > 0.0 && a * n >= 0.0
    ensures a >= 0.0
  {
    assert a == a * n / n;
  }

  /** The guard under which the scaler at `total` adds an instance only to remove it again. */
  predicate Oscillates(c: Load, total: nat) {
    && 0 < total && c.busy <= total && Need(c) <= total && c.min <= total < c.max
    && Util(c.busy, total) >= c.pol.upUtil > Util(c.busy, total + 1)
    && c.p99 <= c.pol.upP99 && c.err < c.pol.upErr
    && (c.queued > 0 || Util(c.busy, total + 1) < c.pol.downUtil)
  }

  /** Up is followed by down, and down by up, exactly under that guard. */
  lemma ReversesExactly(c: Load, total: nat)
    requires c.busy <= total && c.min <= c.max
    ensures Decide(c, total) == ScaleUp && Decide(c, total + 1) == ScaleDown <==> Oscillates(c, total)
  {
    if total > 0 { UtilAtMostHalves(c.busy, total); }
  }

  /** With an empty queue and ScaleUpUtilPct at least twice ScaleDownUtilPct, the guard never holds. */
  lemma GapStopsOscillation(c: Load, total: nat)
    requires c.queued == 0 && c.pol.upUtil >= 2.0 * c.pol.downUtil >= 0.0
    ensures !Oscillates(c, total)
  {
    if total > 0 { UtilAtMostHalves(c.busy, total); }
  }

  function OneBusy(upUtil: real, downUtil: real, target: int, queued: nat, max: int): Load {
    Load(Policy(target, upUtil, 0.0, 1.0, downUtil), 0, max, 1, queued, 0.0, 0.0)
  }

  /** The busy instances, in percent, of which a total reaches the threshold. */
  function Demand(x: real, total: nat): real { x * total as real }

  /** The test of a threshold, without the division. */
  lemma UtilAtLeast(busy: nat, total: nat, x: real)
    requires total > 0
    ensures Util(busy, total) >= x <==> busy as real * 100.0 >= Demand(x, total)
  {
    var n, util := total as real, Util(busy, total);
    Shares(busy as real, n);
    assert util * n == busy as real / n * n * 100.0;
    if util < x { assert (x - util) * n > 0.0; } else { assert (util - x) * n >= 0.0; }
  }

  lemma Shares(b: real, n: real)
    requires n > 0.0
    ensures b / n * n == b
  {
  }

  lemma DemandGrows(x: real, a: nat, b: nat)
    requires x >= 0.0 && a <= b
    ensures Demand(x, a) <= Demand(x, b)
  {
    assert x * (b as real - a as real) >= 0.0;
  }

  lemma DemandRises(x: real, y: real, total: nat)
    requires x <= y
    ensures Demand(x, total) <= Demand(y, total)
  {
    assert (y - x) * total as real >= 0.0;
  }

  /** The largest total that one busy instance makes hot. */
  function HotTotal(upUtil: real): int
    requires upUtil > 0.0
  {
    (100.0 / upUtil).Floor
  }

  lemma HotTotalIs(upUtil: real)
    requires 0.0 < upUtil <= 100.0
    ensures HotTotal(upUtil) >= 1
    ensures Demand(upUtil, HotTotal(upUtil)) <= 100.0 < Demand(upUtil, HotTotal(upUtil) + 1)
  {
    var x := 100.0 / upUtil;
    var most := HotTotal(upUtil);
    Shares(100.0, upUtil);
    var under, over := x - most as real, (most + 1) as real - x;
    assert Demand(upUtil, most) == 100.0 - under * upUtil && under * upUtil >= 0.0;
    assert Demand(upUtil, most + 1) == 100.0 + over * upUtil && over * upUtil > 0.0;
  }

  /** The thresholds are too close: one busy instance at its largest hot total is cold beside one more. */
  predicate TooClose(upUtil: real, downUtil: real) {
    0.0 < upUtil <= 100.0 && downUtil > 100.0 / (HotTotal(upUtil) + 1) as real
  }

  lemma ColdBeside(x: real, total: nat)
    requires total > 0
    ensures x > 100.0 / total as real <==> Demand(x, total) > 100.0
  {
    var n, y := total as real, 100.0 / total as real;
    Shares(100.0, n);
    if x > y { assert (x - y) * n > 0.0; } else { assert (y - x) * n >= 0.0; }
  }

  /** Then a load with one busy instance and an empty queue oscillates. */
  lemma NarrowGapOscillates(upUtil: real, downUtil: real) returns (c: Load, total: nat)
    requires TooClose(upUtil, downUtil)
    ensures c.queued == 0 && c.min <= c.max && c.pol.upUtil == upUtil && c.pol.downUtil == downUtil
    ensures Oscillates(c, total)
  {
    HotTotalIs(upUtil);
    total := HotTotal(upUtil);
    c := OneBusy(upUtil, downUtil, 1, 0, total + 1);
    ColdBeside(downUtil, total + 1);
    hide Demand, HotTotal;
    UtilAtLeast(1, total, upUtil);
    UtilAtLeast(1, total + 1, upUtil);
    UtilAtLeast(1, total + 1, downUtil);
  }

  lemma DemandTimes(x: real, a: nat, b: nat)
    ensures Demand(x, a * b) == Demand(x, a) * b as real
  {
    assert (a * b) as real == a as real * b as real;
  }

  /** No load that is hot at a total and cold beside it has more than its share of busy instances. */
  lemma OneBusyIsWorst(upUtil: real, downUtil: real, busy: nat, total: nat)
    requires 0.0 < upUtil <= 100.0 && total > 0
    requires Demand(upUtil, total) <= busy as real * 100.0 < Demand(downUtil, total + 1)
    ensures Demand(downUtil, HotTotal(upUtil) + 1) > 100.0
  {
    hide Demand, HotTotal;
    HotTotalIs(upUtil);
    var most := HotTotal(upUtil) + 1;
    DemandOfOne(upUtil);
    DemandGrows(upUtil, 1, total);
    Positive(downUtil, total + 1);
    DemandTimes(upUtil, most, busy);
    DemandTimes(downUtil, most, busy);
    Larger(Demand(upUtil, most), 100.0, busy);
    if most * busy <= total { DemandGrows(upUtil, most * busy, total); }
    DemandGrows(downUtil, total + 1, most * busy);
    if Demand(downUtil, most) <= 100.0 { NotLarger(Demand(downUtil, most), 100.0, busy); }
  }

  lemma Positive(x: real, total: nat)
    requires Demand(x, total) > 0.0
    ensures x > 0.0
  {
  }

  lemma DemandOfOne(x: real)
    ensures Demand(x, 1) == x
  {
  }

  lemma Larger(x: real, y: real, n: nat)
    requires x > y && n > 0
    ensures x * n as real > y * n as real
  {
    assert (x - y) * n as real > 0.0;
  }

  lemma NotLarger(x: real, y: real, n: nat)
    requires x <= y
    ensures x * n as real <= y * n as real
  {
    assert (y - x) * n as real >= 0.0;
  }

  lemma OscillatesTooClose(c: Load, total: nat)
    requires Oscillates(c, total) && c.queued == 0
    ensures TooClose(c.pol.upUtil, c.pol.downUtil)
  {
    OutOfReach(c, total);
    UtilAtLeast(c.busy, total, c.pol.upUtil);
    UtilAtLeast(c.busy, total + 1, c.pol.downUtil);
    OneBusyIsWorst(c.pol.upUtil, c.pol.downUtil, c.busy, total);
    HotTotalIs(c.pol.upUtil);
    ColdBeside(c.pol.downUtil, HotTotal(c.pol.upUtil) + 1);
  }

  /** With an empty queue some load oscillates under given thresholds if and only if they are too close. */
  lemma EmptyQueueOscillatesExactly(upUtil: real, downUtil: real)
    ensures (exists c: Load, total: nat | Oscillates(c, total) ::
               c.queued == 0 && c.min <= c.max && c.pol.upUtil == upUtil && c.pol.downUtil == downUtil)
            <==> TooClose(upUtil, downUtil)
  {
    hide Oscillates, TooClose;
    if TooClose(upUtil, downUtil) {
      var c, total := NarrowGapOscillates(upUtil, downUtil);
    } else {
      forall c: Load, total: nat | Oscillates(c, total) && c.queued == 0
        ensures c.pol.upUtil != upUtil || c.pol.downUtil != downUtil
      {
        OscillatesTooClose(c, total);
      }
    }
  }

  /** Thresholds with the twofold gap are never too close. */
  lemma GapIsWideEnough(upUtil: real, downUtil: real)
    requires upUtil >= 2.0 * downUtil
    ensures !TooClose(upUtil, downUtil)
  {
    if 0.0 < upUtil <= 100.0 {
      HotTotalIs(upUtil);
      var most := HotTotal(upUtil);
      ColdBeside(downUtil, most + 1);
      DemandRises(2.0 * downUtil, upUtil, most);
      assert Demand(2.0 * downUtil, most) == Demand(downUtil, most) + Demand(downUtil, most);
      if downUtil > 0.0 {
        DemandGrows(downUtil, most + 1, most + most);
        assert Demand(downUtil, most + most) == Demand(downUtil, most) + Demand(downUtil, most);
      } else {
        assert (0.0 - downUtil) * (most + 1) as real >= 0.0;
      }
    }
  }

  /** A queue brings it back whatever the gap: the test of ScaleDownUtilPct is skipped while requests wait. */
  lemma QueueOscillates(upUtil: real, downUtil: real) returns (c: Load, total: nat)
    requires 0.0 < upUtil <= 100.0
    ensures c.queued > 0 && c.min <= c.max && c.pol.upUtil == upUtil && c.pol.downUtil == downUtil
    ensures Oscillates(c, total)
  {
    HotTotalIs(upUtil);
    total := HotTotal(upUtil);
    hide Demand, HotTotal;
    UtilAtLeast(1, total, upUtil);
    UtilAtLeast(1, total + 1, upUtil);
    c := OneBusy(upUtil, downUtil, 2, 1, total + 1);
  }

  /** A threshold that no utilisation reaches, or none falls below, never makes the guard hold. */
  lemma OutOfReach(c: Load, total: nat)
    requires Oscillates(c, total)
    ensures 0.0 < c.pol.upUtil <= 100.0
  {
    UtilAtLeast(c.busy, total, c.pol.upUtil);
    UtilAtLeast(c.busy, total + 1, c.pol.upUtil);
    hide Demand;
    NoDemand(total + 1);
    if c.pol.upUtil <= 0.0 {
      DemandRises(c.pol.upUtil, 0.0, total + 1);
    } else if c.pol.upUtil > 100.0 {
      MoreThanAll(c.pol.upUtil, total);
    }
  }

  lemma NoDemand(total: nat)
    ensures Demand(0.0, total) == 0.0
  {
  }

  lemma MoreThanAll(x: real, total: nat)
    requires x > 100.0 && total > 0
    ensures Demand(x, total) > 100.0 * total as real
  {
    assert (x - 100.0) * total as real > 0.0;
  }

  /** So with requests waiting some load oscillates under given thresholds if and only if that of scaling up can be
      reached, and whatever that of scaling down. */
  lemma QueueOscillatesExactly(upUtil: real, downUtil: real)
    ensures (exists c: Load, total: nat | Oscillates(c, total) ::
               c.queued > 0 && c.min <= c.max && c.pol.upUtil == upUtil && c.pol.downUtil == downUtil)
            <==> 0.0 < upUtil <= 100.0
  {
    hide Oscillates;
    if 0.0 < upUtil <= 100.0 {
      var c, total := QueueOscillates(upUtil, downUtil);
    } else {
      forall c: Load, total: nat | Oscillates(c, total) ensures c.pol.upUtil != upUtil { OutOfReach(c, total); }
    }
  }

  /** Where it oscillates it never stays. */
  lemma {:induction false} NeverStays(c: Load, total: nat, k: nat)
    requires c.min <= c.max && Oscillates(c, total)
    ensures Iterate(c, total, k) in {total, total + 1} && Decide(c, Iterate(c, total, k)) != Stay
    decreases k
  {
    ReversesExactly(c, total);
    if k == 1 {
    } else if k >= 2 {
      assert Next(c, Next(c, total)) == total;
      NeverStays(c, total, k - 2);
    }
  }

  /** While it scales up it goes on upwards until it stays. */
  lemma {:induction false} SettlesUp(c: Load, total: nat) returns (k: nat)
    requires c.min <= c.max && c.busy <= total && Decide(c, total) != ScaleDown
    requires forall n: nat :: !Oscillates(c, n)
    ensures Decide(c, Iterate(c, total, k)) == Stay && Iterate(c, total, k) == total + k
    ensures k == 0 || total + k <= c.max
    ensures Decide(c, total) == Stay ==> k == 0
    decreases c.max - total
  {
    if Decide(c, total) == Stay {
      k := 0;
    } else {
      ReversesExactly(c, total);
      assert !Oscillates(c, total);
      k := SettlesUp(c, total + 1);
      k := k + 1;
    }
  }

  lemma {:induction false} SettlesDown(c: Load, total: nat) returns (k: nat)
    requires c.min <= c.max && c.busy <= total && Decide(c, total) != ScaleUp
    requires forall n: nat :: !Oscillates(c, n)
    ensures Decide(c, Iterate(c, total, k)) == Stay && Iterate(c, total, k) == total - k && k <= total - c.busy
    ensures Decide(c, total) == Stay ==> k == 0
    decreases total
  {
    if Decide(c, total) == Stay {
      k := 0;
    } else {
      ReversesExactly(c, total - 1);
      assert !Oscillates(c, total - 1);
      k := SettlesDown(c, total - 1);
      k := k + 1;
    }
  }

  lemma {:induction false} StaysPut(c: Load, total: nat, k: nat, j: nat)
    requires Decide(c, Iterate(c, total, k)) == Stay && k <= j
    ensures Iterate(c, total, j) == Iterate(c, total, k)
    decreases j
  {
    if k > 0 {
      StaysPut(c, Next(c, total), k - 1, j - 1);
    } else if j > 0 {
      StaysPut(c, total, 0, j - 1);
    }
  }

  ghost predicate Settles(c: Load, total: nat) {
    exists k: nat :: Decide(c, Iterate(c, total, k)) == Stay
  }

  /** The loop settles from every start with all busy instances counted if and only if the guard holds nowhere. */
  lemma SettlesExactly(c: Load)
    requires c.min <= c.max
    ensures (forall total: nat :: c.busy <= total ==> Settles(c, total)) <==> (forall n: nat :: !Oscillates(c, n))
  {
    if forall n: nat :: !Oscillates(c, n) {
      forall total: nat | c.busy <= total ensures Settles(c, total) {
        if Decide(c, total) == ScaleDown {
          var k := SettlesDown(c, total);
        } else {
          var k := SettlesUp(c, total);
        }
      }
    } else {
      var n: nat :| Oscillates(c, n);
      forall k: nat ensures Decide(c, Iterate(c, n, k)) != Stay {
        NeverStays(c, n, k);
      }
      assert !Settles(c, n);
    }
  }

  /** Stability: with an empty queue, constant load and the gap, the loop moves in one direction only, stays within
      the number of steps given, and from then on changes nothing. */
  lemma Stable(c: Load, total: nat) returns (k: nat)
    requires c.min <= c.max && c.busy <= total && c.queued == 0
    requires c.pol.upUtil >= 2.0 * c.pol.downUtil >= 0.0
    ensures forall j: nat :: k <= j ==> Iterate(c, total, j) == Iterate(c, total, k)
    ensures Decide(c, Iterate(c, total, k)) == Stay
    ensures match Decide(c, total)
            case ScaleUp => Iterate(c, total, k) == total + k && total + k <= c.max
            case ScaleDown => Iterate(c, total, k) == total - k && k <= total - c.busy
            case Stay => k == 0
  {
    forall n: nat ensures !Oscillates(c, n) {
      GapStopsOscillation(c, n);
    }
    if Decide(c, total) == ScaleDown {
      k := SettlesDown(c, total);
    } else {
      k := SettlesUp(c, total);
    }
    forall j: nat | k <= j ensures Iterate(c, total, j) == Iterate(c, total, k) {
      StaysPut(c, total, k, j);
    }
  }
}
