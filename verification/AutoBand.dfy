/** Repeated edits of one edge of the Auto band, and the raise/lower command. */
module AutoBand {
  import opened AcTypes
  import opened Bundles
  import opened Kernel
  import opened MachineInts
  import opened Projector
  import opened Reconciler

  // ----- Contraction -----

  /** A write of the edge that belongs to the centre y, on either side, at a moment
      when the device-wins window is over. */
  predicate PullsToward(cfg: Config, k: KernelState, y: int16, e: Event)
    requires FitsBand(cfg, y)
  {
    && e.Intent?
    && (e.intent == SetHeatingSetpoint(y - cfg.halfWidth) || e.intent == SetCoolingSetpoint(y + cfg.halfWidth))
    && WindowOver(cfg, e.now, k.stamps.auto)
  }

  /** Halving the way to y again and again, rounded toward zero. */
  function Pulled(d: int, y: int, n: nat): int {
    if n == 0 then d else TruncDiv(Pulled(d, y, n - 1) + y, 2)
  }

  lemma {:induction false} PulledBetween(d: int, y: int, n: nat)
    ensures d <= Pulled(d, y, n) <= y || y <= Pulled(d, y, n) <= d
  {
    if n > 0 {
      PulledBetween(d, y, n - 1);
    }
  }

  lemma {:induction false} PulledFromZeroUp(d: nat, y: nat, n: nat)
    ensures Pulled(d, y, n) == y + (d - y) / Pow2(n)
  {
    if n > 0 {
      PulledFromZeroUp(d, y, n - 1);
      PulledBetween(d, y, n - 1);
      HalveAgain(d - y, Pow2(n - 1));
    }
  }

  function Distance(a: int, b: int): int {
    if a >= b then a - b else b - a
  }

  lemma {:induction false} PulledNear(d: int, y: int, n: nat)
    ensures Distance(Pulled(d, y, n), y) <= -(-Distance(d, y) / Pow2(n))
  {
    if n > 0 {
      PulledNear(d, y, n - 1);
      HalvesDistance(Pulled(d, y, n - 1), y);
      HalveAgain(-Distance(d, y), Pow2(n - 1));
    }
  }

  lemma HalvesDistance(d: int, y: int)
    ensures Distance(TruncDiv(d + y, 2), y) <= -(-Distance(d, y) / 2)
  {
  }

  lemma {:induction false} WritesPull(cfg: Config, k: KernelState, y: int16, es: seq<Event>)
    requires k.ac.mode.observed == OperationalMode.Auto
    requires FitsBand(cfg, k.ac.auto.desired) && FitsBand(cfg, y)
    requires forall i :: 0 <= i < |es| ==> PullsToward(cfg, k, y, es[i])
    ensures var r := Run(cfg, k, es);
            && r.ac.auto.desired == Pulled(k.ac.auto.desired, y, |es|)
            && r.ac.mode.observed == OperationalMode.Auto && r.stamps == k.stamps
  {
    if es != [] {
      hide ApplyIntent, Pulled;
      var prior, e := es[..|es| - 1], es[|es| - 1];
      WritesPull(cfg, k, y, prior);
      PulledBetween(k.ac.auto.desired, y, |prior|);
      assert PullsToward(cfg, k, y, e);
      OnePull(cfg, e.now, Run(cfg, k, prior), y, e.intent, |prior|, k.ac.auto.desired);
    }
  }

  lemma OnePull(cfg: Config, now: int, k: KernelState, y: int16, i: WriteIntent, n: nat, d: int)
    requires k.ac.mode.observed == OperationalMode.Auto && k.ac.auto.desired == Pulled(d, y, n)
    requires FitsBand(cfg, k.ac.auto.desired) && FitsBand(cfg, y)
    requires PullsToward(cfg, k, y, Intent(now, i))
    ensures var r := ApplyIntent(cfg, now, k, i);
            r == WithAuto(k, r.ac.auto) && r.ac.auto.desired == Pulled(d, y, n + 1)
  {
    PulledBetween(k.ac.auto.desired, y, 1);
    EdgePulls(cfg, now, k, i, TruncDiv(k.ac.auto.desired + y, 2));
  }

  /** Any mix of n such writes takes the wanted centre from x to exactly
      y + floor((x - y) / 2^n). */
  lemma Contraction(cfg: Config, k: KernelState, y: int16, es: seq<Event>)
    requires k.ac.mode.observed == OperationalMode.Auto
    requires 0 <= k.ac.auto.desired && 0 <= y
    requires FitsBand(cfg, k.ac.auto.desired) && FitsBand(cfg, y)
    requires forall i :: 0 <= i < |es| ==> PullsToward(cfg, k, y, es[i])
    ensures var r := Run(cfg, k, es);
            && r.ac.auto.desired == y + (k.ac.auto.desired - y) / Pow2(|es|)
            && r.ac.mode.observed == OperationalMode.Auto && r.stamps == k.stamps
  {
    hide Run, Pulled, Pow2, FitsBand, PullsToward;
    WritesPull(cfg, k, y, es);
    PulledFromZeroUp(k.ac.auto.desired, y, |es|);
  }

  /** Below zero the halves round the other way, but on any temperature scale n writes
      leave at most the distance divided by 2^n, rounded up. */
  lemma ContractionAnySign(cfg: Config, k: KernelState, y: int16, es: seq<Event>)
    requires k.ac.mode.observed == OperationalMode.Auto
    requires FitsBand(cfg, k.ac.auto.desired) && FitsBand(cfg, y)
    requires forall i :: 0 <= i < |es| ==> PullsToward(cfg, k, y, es[i])
    ensures Distance(Run(cfg, k, es).ac.auto.desired, y) <= -(-Distance(k.ac.auto.desired, y) / Pow2(|es|))
  {
    hide Run, Pulled, Distance, Pow2, FitsBand, PullsToward;
    WritesPull(cfg, k, y, es);
    PulledNear(k.ac.auto.desired, y, |es|);
  }

  /** Fifteen writes are always enough: from above the centre arrives, from below it
      stops one hundredth of a degree short and stays there. */
  lemma FifteenWritesArrive(cfg: Config, k: KernelState, y: int16, es: seq<Event>)
    requires k.ac.mode.observed == OperationalMode.Auto
    requires 0 <= k.ac.auto.desired && 0 <= y
    requires FitsBand(cfg, k.ac.auto.desired) && FitsBand(cfg, y)
    requires |es| >= 15 && forall i :: 0 <= i < |es| ==> PullsToward(cfg, k, y, es[i])
    ensures Run(cfg, k, es).ac.auto.desired == if k.ac.auto.desired >= y then y else y - 1
  {
    hide Run, Pulled, FitsBand, PullsToward;
    WritesPull(cfg, k, y, es);
    PulledFifteen(k.ac.auto.desired, y, |es|);
  }

  lemma PulledFifteen(d: nat, y: nat, n: nat)
    requires d < 0x8000 && y < 0x8000 && n >= 15
    ensures Pulled(d, y, n) == if d >= y then y else y - 1
  {
    assert Pow2(15) == 0x8000;
    hide Pow2, Pulled;
    Pow2Grows(15, n);
    PulledFromZeroUp(d, y, n);
    SmallQuotient(d - y, Pow2(n));
  }

  lemma SmallQuotient(z: int, p: int)
    requires -p < z < p
    ensures z / p == if z >= 0 then 0 else -1
  {
    DivisionUnique(z, p, if z >= 0 then 0 else -1, if z >= 0 then z else z + p);
  }

  // ----- SetpointRaiseLower -----

  type int8 = x: int | -0x80 <= x < 0x80

  datatype RaiseLowerMode = HeatEdge | CoolEdge | BothEdges | Unknown

  datatype Limits = Limits(minHeat: int16, maxHeat: int16, minCool: int16, maxCool: int16)

  const DEFAULT_LIMITS := Limits(1000, 3000, 1600, 3200)

  function SetpointDelta(current: int16, amount: int8, lo: int16, hi: int16): int16 {
    var wanted := current + amount * 10;
    var raised := if wanted < lo then lo else wanted;
    if raised > hi then hi else raised
  }

  /** The new setpoint is within the limits, and as close to the one asked for as they
      allow; limits that cross leave the upper one. */
  lemma WithinLimits(current: int16, amount: int8, lo: int16, hi: int16)
    ensures var r, wanted := SetpointDelta(current, amount, lo, hi), current + 10 * amount;
            && (lo <= hi ==> lo <= r <= hi)
            && (lo <= wanted <= hi ==> r == wanted)
            && (wanted < lo <= hi ==> r == lo)
            && (wanted > hi ==> r == hi)
            && (lo > hi ==> r == hi)
  {
  }

  /** The command: each edge is read, moved by the amount and written; the cool edge is
      read after the heat edge was written. */
  function RaiseLower(
      cfg: Config, heatAt: int, coolAt: int, k: KernelState, mode: RaiseLowerMode, amount: int8, limits: Limits)
    : KernelState
  {
    var heated :=
      if mode == HeatEdge || mode == BothEdges then
        ApplyIntent(cfg, heatAt, k, SetHeatingSetpoint(
          SetpointDelta(Project(cfg, k.ac).heatingSetpoint, amount, limits.minHeat, limits.maxHeat)))
      else k;
    if mode == CoolEdge || mode == BothEdges then
      ApplyIntent(cfg, coolAt, heated, SetCoolingSetpoint(
        SetpointDelta(Project(cfg, heated.ac).coolingSetpoint, amount, limits.minCool, limits.maxCool)))
    else heated
  }

  method HandleSetpointRaiseLower(
      r: Reconciler, heatAt: int, coolAt: int, mode: RaiseLowerMode, amount: int8, limits: Limits)
    returns (accepted: bool)
    requires r.Valid()
    modifies r.Footprint() - {r}
    ensures r.View() == RaiseLower(r.cfg, heatAt, coolAt, old(r.View()), mode, amount, limits)
    ensures accepted <==> mode != Unknown
  {
    var doHeat := mode == BothEdges || mode == HeatEdge;
    var doCool := mode == BothEdges || mode == CoolEdge;
    if !doHeat && !doCool {
      return false;
    }
    if doHeat {
      var read := Project(r.cfg, r.state.View()).heatingSetpoint;
      var next := SetpointDelta(read, amount, limits.minHeat, limits.maxHeat);
      var change := r.ApplyWrite(heatAt, SetHeatingSetpoint(next));
    }
    if doCool {
      var read := Project(r.cfg, r.state.View()).coolingSetpoint;
      var next := SetpointDelta(read, amount, limits.minCool, limits.maxCool);
      var change := r.ApplyWrite(coolAt, SetCoolingSetpoint(next));
    }
    return true;
  }

  /** The unit is known and seen to be in Auto, no centre is in flight, and for each edge
      the command moves the device-wins window is over and no limit cuts it short. */
  predicate Unhindered(
      cfg: Config, heatAt: int, coolAt: int, k: KernelState, mode: RaiseLowerMode, amount: int8, limits: Limits) {
    var d, w := k.ac.auto.desired, cfg.halfWidth;
    && k.ac.mode.observed == k.ac.mode.Projected() == OperationalMode.Auto
    && k.ac.auto.inFlight.None?
    && FitsBand(cfg, d)
    && (mode == HeatEdge || mode == BothEdges ==>
          && WindowOver(cfg, heatAt, k.stamps.auto)
          && limits.minHeat <= d - w + 10 * amount <= limits.maxHeat)
    && (mode == CoolEdge ==>
          && WindowOver(cfg, coolAt, k.stamps.auto)
          && limits.minCool <= d + w + 10 * amount <= limits.maxCool)
    && (mode == BothEdges ==>
          && WindowOver(cfg, coolAt, k.stamps.auto) && FitsBand(cfg, d + 5 * amount)
          && limits.minCool <= d + w + 15 * amount <= limits.maxCool)
  }

  /** In Auto both edges together move the centre by the whole amount, one edge by half
      of it, nothing else changes, and a zero amount changes nothing at all. */
  lemma RaiseLowerInAuto(
      cfg: Config, heatAt: int, coolAt: int, k: KernelState, mode: RaiseLowerMode, amount: int8, limits: Limits)
    requires Unhindered(cfg, heatAt, coolAt, k, mode, amount, limits)
    ensures var moved := match mode { case BothEdges => 10 * amount case Unknown => 0 case _ => 5 * amount };
            RaiseLower(cfg, heatAt, coolAt, k, mode, amount, limits)
              == WithAuto(k, k.ac.auto.WithDesired(k.ac.auto.desired + moved))
  {
    hide ApplyIntent;
    var d, w := k.ac.auto.desired, cfg.halfWidth;
    if mode == HeatEdge || mode == BothEdges {
      EdgePulls(cfg, heatAt, k, SetHeatingSetpoint(d - w + 10 * amount), d + 5 * amount);
      if mode == BothEdges {
        var heated := WithAuto(k, k.ac.auto.WithDesired(d + 5 * amount));
        EdgePulls(cfg, coolAt, heated, SetCoolingSetpoint(d + w + 15 * amount), d + 10 * amount);
      }
    } else if mode == CoolEdge {
      EdgePulls(cfg, coolAt, k, SetCoolingSetpoint(d + w + 10 * amount), d + 5 * amount);
    }
  }
  /** The setpoint as the command finds it moved, within its limits. */
  predicate Moved(before: int16, after: int16, amount: int8, lo: int16, hi: int16) {
    after == (if before + 10 * amount > hi || lo > hi then hi
              else if before + 10 * amount < lo then lo
              else before + 10 * amount)
  }

  /** Outside Auto, with no setpoint in flight and the device-wins window over: each edge
      the command names is wanted ten times the amount further, within its limits, and
      nothing else changes. */
  lemma RaiseLowerOutsideAuto(
      cfg: Config, heatAt: int, coolAt: int, k: KernelState, mode: RaiseLowerMode, amount: int8, limits: Limits)
    requires k.ac.mode.observed != OperationalMode.Auto && k.ac.mode.Projected() != OperationalMode.Auto
    requires k.ac.heat.inFlight.None? && k.ac.cool.inFlight.None?
    requires k.stamps.heat == 0 || heatAt - k.stamps.heat >= cfg.windowMs
    requires k.stamps.cool == 0 || coolAt - k.stamps.cool >= cfg.windowMs
    ensures var r := RaiseLower(cfg, heatAt, coolAt, k, mode, amount, limits);
            && r == k.(ac := k.ac.(heat := r.ac.heat, cool := r.ac.cool))
            && (if mode == HeatEdge || mode == BothEdges
                then Moved(k.ac.heat.desired, r.ac.heat.desired, amount, limits.minHeat, limits.maxHeat)
                else r.ac.heat == k.ac.heat)
            && (if mode == CoolEdge || mode == BothEdges
                then Moved(k.ac.cool.desired, r.ac.cool.desired, amount, limits.minCool, limits.maxCool)
                else r.ac.cool == k.ac.cool)
  {
  }
}
