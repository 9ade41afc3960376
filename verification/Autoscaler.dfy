/** The autoscaler. */
module Autoscaler {
  // The proportional autoscaler, alone and in closed loop with a metric that
  // spreads a load over the replicas, and its cooldown.

  import opened Options

  function Max(a: int, b: int): int { if a < b then b else a }

  function Min(a: int, b: int): int { if a < b then a else b }

  /** `Math.ceil` */
  function Ceil(x: real): (n: int)
    ensures x <= n as real < x + 1.0
  {
    -((-x).Floor)
  }

  function Clamp(min: int, max: int, n: int): int { Max(min, Min(max, n)) }

  datatype Decision = Decision(desired: int, reason: string)

  /** `computeDesiredReplicas` */
  function ComputeDesiredReplicas(current: int, observed: real, target: real, min: int, max: int): Decision {
    if target <= 0.0 then Decision(Clamp(min, max, current), "invalid target")
    else
      var ratio := observed / target;
      if 0.9 < ratio < 1.1 then Decision(Clamp(min, max, current), "within deadband")
      else
        var replicas := if current > 0 then current else 1;
        Decision(Clamp(min, max, Ceil(replicas as real * ratio)),
                 if ratio >= 1.0 then "scaling up" else "scaling down")
  }

  // ------------------------------------------------------------- the closed loop

  /** One evaluation when the metric is the load shared by the replicas. */
  function Step(load: real, target: real, min: int, max: int, replicas: int): int
    requires replicas >= 1
  {
    ComputeDesiredReplicas(replicas, load / replicas as real, target, min, max).desired
  }

  /** The load in units of one replica at target. */
  function Demand(load: real, target: real): real
    requires target > 0.0
  {
    load / target
  }

  lemma RatioIs(load: real, target: real, r: real)
    requires target > 0.0 && r > 0.0
    ensures r * (load / r / target) == load / target
    ensures load / r / target > 0.9 <==> load / target > 0.9 * r
    ensures load / r / target < 1.1 <==> load / target < 1.1 * r
  {
    var x, d := load / r / target, load / target;
    assert x * target == load / r;
    assert (x * r) * target == (x * target) * r == load == d * target;
    Cancel(x * r, d, target);
    assert r * (load / r / target) == r * x == x * r;
    Thresholds(x, d, r);
  }

  lemma Thresholds(x: real, d: real, r: real)
    requires r > 0.0 && x * r == d
    ensures x > 0.9 <==> d > 0.9 * r
    ensures x < 1.1 <==> d < 1.1 * r
  {
    Threshold(x, 0.9, d, r);
    Threshold(x, 1.1, d, r);
  }

  lemma Threshold(x: real, k: real, d: real, r: real)
    requires r > 0.0 && x * r == d
    ensures x > k <==> d > k * r
    ensures x < k <==> d < k * r
  {
    Scaled(x, k, r);
  }

  lemma Cancel(a: real, b: real, t: real)
    requires t > 0.0 && a * t == b * t
    ensures a == b
  {
    Scaled(a, b, t);
  }

  lemma Scaled(x: real, k: real, r: real)
    requires r > 0.0
    ensures (x > k <==> x * r > k * r) && (x < k <==> x * r < k * r)
  {
    if x > k {
      assert (x - k) * r > 0.0;
    } else if x < k {
      assert (k - x) * r > 0.0;
    }
  }

  /** Comparing the demand with a count is comparing the load with that many
      replicas at target. */
  lemma Compare(load: real, target: real, k: real)
    requires target > 0.0
    ensures load > k * target <==> Demand(load, target) > k
    ensures load < k * target <==> Demand(load, target) < k
  {
    var d := Demand(load, target);
    assert d * target == load;
    Scaled(d, k, target);
  }

  /** What a step does, by the demand alone: stay inside the deadband, else go to
      the demand rounded up; never leave the limits. */
  lemma StepIs(load: real, target: real, min: int, max: int, r: int)
    requires target > 0.0 && r >= 1
    ensures var d := Demand(load, target);
      Step(load, target, min, max, r)
      == Clamp(min, max, if 0.9 * r as real < d < 1.1 * r as real then r else Ceil(d))
  {
    RatioIs(load, target, r as real);
  }

  /** One step settles the loop, from any number of replicas. */
  lemma SettlesInOneStep(load: real, target: real, min: int, max: int, r: int)
    requires target > 0.0 && 1 <= min <= max && r >= 1
    ensures var s := Step(load, target, min, max, r);
      min <= s <= max && Step(load, target, min, max, s) == s
  {
    var s := Step(load, target, min, max, r);
    StepIs(load, target, min, max, r);
    StepIs(load, target, min, max, s);
  }

  /** Where it settles the metric is under 1.1 times the target, unless no more
      replicas are allowed; and over 0.9 times the target, unless with one replica
      fewer it would be over the target, or no fewer are allowed. */
  lemma SettledIsInBand(load: real, target: real, min: int, max: int, r: int)
    requires target > 0.0 && 1 <= min <= max && r >= 1
    ensures var s := Step(load, target, min, max, r);
      && (s < max ==> load < (1.1 * s as real) * target)
      && (s > min ==> load > (0.9 * s as real) * target || load > (s - 1) as real * target)
  {
    hide Demand, Step;
    var s := Step(load, target, min, max, r);
    StepIs(load, target, min, max, r);
    Compare(load, target, 1.1 * s as real);
    Compare(load, target, 0.9 * s as real);
    Compare(load, target, (s - 1) as real);
    BandOf(Demand(load, target), min, max, r);
  }

  lemma BandOf(d: real, min: int, max: int, r: int)
    requires 1 <= min <= max && r >= 1
    ensures var s := Clamp(min, max, if 0.9 * r as real < d < 1.1 * r as real then r else Ceil(d));
      && (s < max ==> d < 1.1 * s as real)
      && (s > min ==> d > 0.9 * s as real || d > (s - 1) as real)
  {}

  /** The settled counts are exactly the counts within the limits whose metric is
      inside the deadband, and the demand rounded up and clamped. */
  lemma SettledExactly(load: real, target: real, min: int, max: int, s: int)
    requires target > 0.0 && 1 <= min <= max && s >= 1
    ensures Step(load, target, min, max, s) == s <==>
      || (min <= s <= max && (0.9 * s as real) * target < load < (1.1 * s as real) * target)
      || s == Clamp(min, max, Ceil(Demand(load, target)))
  {
    hide Demand, Step;
    StepIs(load, target, min, max, s);
    Compare(load, target, 1.1 * s as real);
    Compare(load, target, 0.9 * s as real);
    FixedBy(Demand(load, target), min, max, s);
  }

  lemma FixedBy(d: real, min: int, max: int, s: int)
    requires 1 <= min <= max && s >= 1
    ensures s == Clamp(min, max, if 0.9 * s as real < d < 1.1 * s as real then s else Ceil(d)) <==>
      (min <= s <= max && 0.9 * s as real < d < 1.1 * s as real) || s == Clamp(min, max, Ceil(d))
  {}

  // ------------------------------------------------------------------ cooldown

  /** The policy row; times are in milliseconds. */
  datatype Policy = Policy(
    enabled: bool, target: real, min: int, max: int, cooldownSeconds: int, currentReplicas: int,
    lastScaledAt: Option<int>)

  /** One run of the job: when it looks, when it writes, and what it sees. */
  datatype Tick = Tick(now: int, written: int, samples: seq<real>)

  predicate CoolingDown(p: Policy, now: int) {
    p.lastScaledAt.Some? && now - p.lastScaledAt.value < p.cooldownSeconds * 1000
  }

  function Sum(samples: seq<real>): real {
    if samples == [] then 0.0 else Sum(samples[..|samples| - 1]) + samples[|samples| - 1]
  }

  /** What the policy observes in its samples. */
  function Mean(samples: seq<real>): real
    requires samples != []
  {
    Sum(samples) / |samples| as real
  }

  /** The replicas to ask for, if any. */
  function Order(p: Policy, t: Tick): Option<int> {
    if !p.enabled || CoolingDown(p, t.now) || t.samples == [] then None
    else
      var desired := ComputeDesiredReplicas(
        p.currentReplicas, Mean(t.samples), p.target, p.min, p.max).desired;
      if desired == p.currentReplicas then None else Some(desired)
  }

  function After(p: Policy, t: Tick): Policy {
    match Order(p, t)
    case None => p
    case Some(n) => p.(currentReplicas := n, lastScaledAt := Some(t.written))
  }

  /** The job on its row, for an app with a node. */
  class ScalingPolicy {
    var row: Policy

    constructor (row: Policy)
      ensures this.row == row
    {
      this.row := row;
    }

    method ProcessAutoscale(t: Tick) returns (command: Option<int>)
      modifies this
      ensures command == Order(old(row), t) && row == After(old(row), t)
    {
      if !row.enabled { return None; }
      if row.lastScaledAt.Some? && t.now - row.lastScaledAt.value < row.cooldownSeconds * 1000 { return None; }
      if t.samples == [] { return None; }
      var sum := 0.0;
      for i := 0 to |t.samples|
        invariant sum == Sum(t.samples[..i])
      {
        assert t.samples[..i + 1][..i] == t.samples[..i];
        sum := sum + t.samples[i];
      }
      assert t.samples[..|t.samples|] == t.samples;
      var decision := ComputeDesiredReplicas(
        row.currentReplicas, sum / |t.samples| as real, row.target, row.min, row.max);
      if decision.desired == row.currentReplicas { return None; }
      command := Some(decision.desired);
      row := row.(currentReplicas := decision.desired, lastScaledAt := Some(t.written));
    }
  }

  /** What happens to the row: the job runs, or the node reports how many replicas it
      has scaled to. */
  datatype Event = Ticked(tick: Tick) | Reported(replicas: int)

  function Then(p: Policy, e: Event): Policy {
    match e
    case Ticked(t) => After(p, t)
    case Reported(n) => p.(currentReplicas := n)
  }

  /** What has set the count over a run: requests, with the count they started from
      and their times, and reports. */
  datatype Entry = Asked(looked: int, written: int, from: int, replicas: int) | Told(replicas: int)

  function EntryOf(p: Policy, e: Event): seq<Entry> {
    match e
    case Reported(n) => [Told(n)]
    case Ticked(t) =>
      match Order(p, t)
      case None => []
      case Some(n) => [Asked(t.now, t.written, p.currentReplicas, n)]
  }

  function History(p: Policy, events: seq<Event>): seq<Entry>
    decreases |events|
  {
    if events == [] then [] else EntryOf(p, events[0]) + History(Then(p, events[0]), events[1..])
  }

  /** Nothing but reports stand between the two entries. */
  predicate NextRequest(h: seq<Entry>, i: nat, j: nat) {
    && i < j < |h| && h[i].Asked? && h[j].Asked?
    && forall k :: i < k < j ==> h[k].Told?
  }

  /** Nothing but reports stand before the entry. */
  predicate FirstRequest(h: seq<Entry>, j: nat) { j < |h| && h[j].Asked? && forall k :: 0 <= k < j ==> h[k].Told? }

  /** Over every run, reports included: each request starts from the count that the
      entry before it set, stays within the limits, changes the count, and comes no
      sooner than the cooldown after the request before. */
  lemma {:induction false} RequestsAreSpaced(p: Policy, events: seq<Event>)
    requires p.min <= p.max
    ensures var h := History(p, events);
      && (forall i :: 0 <= i < |h| && h[i].Asked? ==> p.min <= h[i].replicas <= p.max && h[i].replicas != h[i].from)
      && (forall i :: 0 < i < |h| && h[i].Asked? ==> h[i].from == h[i - 1].replicas)
      && (|h| > 0 && h[0].Asked? ==> h[0].from == p.currentReplicas)
      && (forall i: nat, j: nat :: NextRequest(h, i, j) ==>
            h[j].looked - h[i].written >= p.cooldownSeconds * 1000)
      && (forall j: nat :: FirstRequest(h, j) ==> !CoolingDown(p, h[j].looked))
    decreases |events|
  {
    hide Sum, Mean, ComputeDesiredReplicas, Order, CoolingDown, History;
    if events == [] {
      NoHistory(p);
    } else {
      var q, e := Then(p, events[0]), EntryOf(p, events[0]);
      var rest := History(q, events[1..]);
      RequestsAreSpaced(q, events[1..]);
      HistoryIs(p, events);
      OneEntry(p, events[0]);
      if e == [] {
        assert e + rest == rest;
      } else {
        WithEntry(p, q, e[0], rest);
        assert e == [e[0]];
      }
    }
  }

  lemma NoHistory(p: Policy)
    ensures History(p, []) == []
  {}

  lemma HistoryIs(p: Policy, events: seq<Event>)
    requires events != []
    ensures History(p, events) == EntryOf(p, events[0]) + History(Then(p, events[0]), events[1..])
  {}

  /** What one event leaves. */
  lemma OneEntry(p: Policy, e: Event)
    requires p.min <= p.max
    ensures var q, h := Then(p, e), EntryOf(p, e);
      && q.min == p.min && q.max == p.max && q.cooldownSeconds == p.cooldownSeconds
      && |h| <= 1 && (h == [] ==> q == p)
      && (h != [] ==> q.currentReplicas == h[0].replicas)
      && (h != [] && h[0].Told? ==> forall now :: CoolingDown(q, now) == CoolingDown(p, now))
      && (h != [] && h[0].Asked? ==>
            && p.min <= h[0].replicas <= p.max && h[0].replicas != h[0].from && h[0].from == p.currentReplicas
            && !CoolingDown(p, h[0].looked)
            && forall now :: !CoolingDown(q, now) ==> now - h[0].written >= p.cooldownSeconds * 1000)
  {
    hide Sum, Mean, ComputeDesiredReplicas;
    if e.Ticked? {
      OrderWithinLimits(p, e.tick);
      Cooled(p, e.tick);
    }
  }

  /** Putting one entry in front of a history. */
  lemma WithEntry(p: Policy, q: Policy, e: Entry, rest: seq<Entry>)
    requires e.Told? ==> forall now :: CoolingDown(q, now) == CoolingDown(p, now)
    requires e.Asked? ==> forall now :: !CoolingDown(q, now) ==> now - e.written >= p.cooldownSeconds * 1000
    requires e.Asked? ==> !CoolingDown(p, e.looked)
    requires forall i: nat, j: nat :: NextRequest(rest, i, j) ==>
      rest[j].looked - rest[i].written >= p.cooldownSeconds * 1000
    requires forall j: nat :: FirstRequest(rest, j) ==> !CoolingDown(q, rest[j].looked)
    ensures var h := [e] + rest;
      && (forall i: nat, j: nat :: NextRequest(h, i, j) ==> h[j].looked - h[i].written >= p.cooldownSeconds * 1000)
      && (forall j: nat :: FirstRequest(h, j) ==> !CoolingDown(p, h[j].looked))
  {
    hide CoolingDown;
    var h := [e] + rest;
    assert forall k :: 0 < k < |h| ==> h[k] == rest[k - 1];
    forall i: nat, j: nat | NextRequest(h, i, j) ensures h[j].looked - h[i].written >= p.cooldownSeconds * 1000 {
      assert forall k :: i < k < j ==> h[k].Told?;
      if i > 0 {
        forall k | i - 1 < k < j - 1 ensures rest[k].Told? { assert h[k + 1].Told?; }
        assert NextRequest(rest, i - 1, j - 1);
      } else {
        forall k | 0 <= k < j - 1 ensures rest[k].Told? { assert h[k + 1].Told?; }
        assert FirstRequest(rest, j - 1);
      }
    }
    forall j: nat | FirstRequest(h, j) ensures !CoolingDown(p, h[j].looked) {
      if j > 0 {
        assert h[0].Told?;
        forall k | 0 <= k < j - 1 ensures rest[k].Told? { assert h[k + 1].Told?; }
        assert FirstRequest(rest, j - 1);
      }
    }
  }

  lemma Cooled(p: Policy, t: Tick)
    ensures Order(p, t).Some? ==> !CoolingDown(p, t.now)
    ensures forall now :: Order(p, t).Some? && !CoolingDown(After(p, t), now) ==>
      now - t.written >= p.cooldownSeconds * 1000
  {
    hide Sum, Mean, ComputeDesiredReplicas;
  }

  lemma OrderWithinLimits(p: Policy, t: Tick)
    requires p.min <= p.max
    ensures Order(p, t).Some? ==> p.min <= Order(p, t).value <= p.max && Order(p, t).value != p.currentReplicas
  {
    hide Sum, Mean;
  }

  // ------------------------------------------------------- what is asked for, and why

  lemma {:induction false} SumOfTwo(a: seq<real>, b: seq<real>)
    ensures Sum(a + b) == Sum(a) + Sum(b)
  {
    if b == [] {
      assert a + b == a;
    } else {
      assert (a + b)[..|a + b| - 1] == a + b[..|b| - 1];
      SumOfTwo(a, b[..|b| - 1]);
    }
  }

  lemma MeanTimes(s: seq<real>)
    requires s != []
    ensures |s| as real * Mean(s) == Sum(s)
  {}

  /** One sample counts as it is, and batches of samples count by their sizes. */
  ghost predicate Averages(m: seq<real> -> real) {
    && (forall x :: m([x]) == x)
    && (forall a, b :: a != [] && b != [] ==>
          |a + b| as real * m(a + b) == |a| as real * m(a) + |b| as real * m(b))
  }

  lemma MeanAverages()
    ensures Averages((s: seq<real>) => if s == [] then 0.0 else Mean(s))
  {
    hide Mean;
    var m := (s: seq<real>) => if s == [] then 0.0 else Mean(s);
    forall x ensures m([x]) == x {
      MeanTimes([x]);
      assert [x][..0] == [];
    }
    forall a, b | a != [] && b != [] ensures |a + b| as real * m(a + b) == |a| as real * m(a) + |b| as real * m(b) {
      MeanTimes(a);
      MeanTimes(b);
      MeanTimes(a + b);
      SumOfTwo(a, b);
    }
  }

  /** Nothing but the mean does that. */
  lemma {:induction false} OnlyTheMeanAverages(m: seq<real> -> real, s: seq<real>)
    requires Averages(m) && s != []
    ensures m(s) == Mean(s)
  {
    hide Mean;
    MeanTimes(s);
    var n := |s| - 1;
    var front, last := s[..n], [s[n]];
    assert front + last == s && last[..0] == [];
    SumOfTwo(front, last);
    if n == 0 {
      assert front == [] && s == last;
    } else {
      OnlyTheMeanAverages(m, front);
      MeanTimes(front);
      assert |s| as real * m(front + last) == |front| as real * m(front) + 1.0 * m(last);
      assert m(s) * |s| as real == Mean(s) * |s| as real;
      Cancel(m(s), Mean(s), |s| as real);
    }
  }

  /** The count `k` is the one the policy aims at for the mean `m`: the one it has, or
      the least count over which its load comes to no more than the target each. */
  predicate AimsAt(p: Policy, m: real, k: int) {
    if p.target <= 0.0 || 0.9 * p.target < m < 1.1 * p.target then k == p.currentReplicas
    else IsCount(Load(p, m), p.target, k)
  }

  /** What the replicas carry at that mean; an app without any counts as having one. */
  function Load(p: Policy, m: real): real { Max(p.currentReplicas, 1) as real * m }

  predicate IsCount(load: real, target: real, k: int) {
    (k - 1) as real * target < load <= k as real * target
  }

  /** A request goes out exactly when the policy is enabled, its last change is as old
      as the cooldown, there are samples, and the count aimed at, within the limits, is
      not the current one. */
  lemma RequestedExactly(p: Policy, t: Tick, n: int)
    ensures Order(p, t) == Some(n) <==>
      && p.enabled && (p.lastScaledAt.Some? ==> t.now - p.lastScaledAt.value >= 1000 * p.cooldownSeconds)
      && t.samples != [] && n != p.currentReplicas
      && exists k :: AimsAt(p, Mean(t.samples), k) && n == Max(p.min, Min(p.max, k))
  {
    hide Mean, Sum, AimsAt;
    if t.samples != [] {
      var m := Mean(t.samples);
      var k := Aim(p, m);
    }
  }

  lemma Aim(p: Policy, m: real) returns (k: int)
    ensures AimsAt(p, m, k) && forall l :: AimsAt(p, m, l) ==> l == k
    ensures ComputeDesiredReplicas(p.currentReplicas, m, p.target, p.min, p.max).desired
            == Max(p.min, Min(p.max, k))
  {
    hide IsCount, Load;
    k := p.currentReplicas;
    if p.target > 0.0 {
      Threshold(m / p.target, 0.9, m, p.target);
      Threshold(m / p.target, 1.1, m, p.target);
      if !(0.9 * p.target < m < 1.1 * p.target) {
        k := Ceil(Max(p.currentReplicas, 1) as real * (m / p.target));
        forall l ensures IsCount(Load(p, m), p.target, l) <==> l == k { LeastCount(p, m, l); }
      }
    }
  }

  lemma LeastCount(p: Policy, m: real, l: int)
    requires p.target > 0.0
    ensures IsCount(Load(p, m), p.target, l) <==> l == Ceil(Max(p.currentReplicas, 1) as real * (m / p.target))
  {
    hide IsCount;
    Times(Max(p.currentReplicas, 1) as real, m / p.target, p.target, m);
    CountOf(Load(p, m), Max(p.currentReplicas, 1) as real * (m / p.target), p.target, l);
  }

  lemma Times(a: real, b: real, c: real, d: real)
    requires b * c == d
    ensures (a * b) * c == a * d
  {}

  lemma CountOf(load: real, y: real, target: real, l: int)
    requires target > 0.0 && y * target == load
    ensures IsCount(load, target, l) <==> l == Ceil(y)
  {
    Between(load, y, target, (l - 1) as real, l as real);
    CeilIs(y, l);
  }

  lemma Between(load: real, y: real, target: real, a: real, b: real)
    requires target > 0.0 && y * target == load
    ensures a * target < load <= b * target <==> a < y <= b
  {
    Scaled(y, a, target);
    Scaled(y, b, target);
  }

  lemma CeilIs(y: real, l: int)
    ensures l == Ceil(y) <==> (l - 1) as real < y <= l as real
  {}

  /** The reason given says what the samples showed, and which way the count goes. */
  lemma ReasonsExactly(current: int, observed: real, target: real, min: int, max: int)
    requires min <= max
    ensures var d := ComputeDesiredReplicas(current, observed, target, min, max);
      && (d.reason == "invalid target" <==> target <= 0.0)
      && (d.reason == "within deadband" <==> target > 0.0 && 0.9 * target < observed < 1.1 * target)
      && (d.reason == "scaling up" <==> target > 0.0 && observed >= 1.1 * target)
      && (d.reason == "scaling down" <==> target > 0.0 && observed <= 0.9 * target)
      && (d.reason == "scaling up" ==> d.desired >= Clamp(min, max, current))
      && (d.reason == "scaling down" ==> d.desired <= Clamp(min, max, Max(current, 1)))
  {
    if target > 0.0 {
      var x := observed / target;
      Threshold(x, 0.9, observed, target);
      Threshold(x, 1.1, observed, target);
      Scaled(1.0, x, Max(current, 1) as real);
    }
  }
}
