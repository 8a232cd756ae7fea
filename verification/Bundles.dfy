/** Bundled writes against the same writes one by one. */
module Bundles {
  import opened AcTypes
  import opened Kernel
  import opened MachineInts
  import opened Options
  import opened TwinFields

  function WithAuto(k: KernelState, auto: Twin<int16>): KernelState {
    k.(ac := k.ac.(auto := auto))
  }

  /** In Auto an edge touches the centre and nothing else; any other write neither
      touches the centre nor looks at it. */
  lemma AutoIsSeparate(cfg: Config, now: int, k: KernelState, i: WriteIntent, auto: Twin<int16>)
    requires k.ac.mode.observed == OperationalMode.Auto
    ensures IsEdge(i) ==> WithAuto(ApplyIntent(cfg, now, k, i), auto) == WithAuto(k, auto)
    ensures !IsEdge(i) ==>
              && ApplyIntent(cfg, now, k, i).ac.auto == k.ac.auto
              && WithAuto(ApplyIntent(cfg, now, k, i), auto) == ApplyIntent(cfg, now, WithAuto(k, auto), i)
    ensures ApplyIntent(cfg, now, k, i).ac.mode.observed == OperationalMode.Auto
  {
  }

  lemma {:induction false} SequenceModuloAuto(
      cfg: Config, now: int, k: KernelState, xs: seq<WriteIntent>, auto: Twin<int16>)
    requires k.ac.mode.observed == OperationalMode.Auto
    ensures WithAuto(ApplyAll(cfg, now, k, xs), auto) == ApplyAll(cfg, now, WithAuto(k, auto), NonEdges(xs))
    ensures ApplyAll(cfg, now, k, xs).ac.mode.observed == OperationalMode.Auto
  {
    if xs != [] {
      var rest, last := xs[..|xs| - 1], xs[|xs| - 1];
      SequenceModuloAuto(cfg, now, k, rest, auto);
      AutoIsSeparate(cfg, now, ApplyAll(cfg, now, k, rest), last, auto);
      if !IsEdge(last) {
        assert (NonEdges(rest) + [last])[..|NonEdges(rest)|] == NonEdges(rest);
      }
    }
  }

  /** For every list of writes a bundle is the plain sequence, except that in Auto with
      both edges present the centre is what a single write of the middle of the last
      heat edge and the last cool edge makes of it. */
  lemma BundleIsSequenceUpToCentre(cfg: Config, now: int, k: KernelState, xs: seq<WriteIntent>)
    ensures ApplyBundle(cfg, now, k, xs) ==
            if Collapses(k, xs) then
              WithAuto(ApplyAll(cfg, now, k, xs),
                       WriteCentre(cfg, now, k, Midpoint(LastHeat(xs).value, LastCool(xs).value)).ac.auto)
            else
              ApplyAll(cfg, now, k, xs)
  {
    if Collapses(k, xs) {
      var centred := WriteCentre(cfg, now, k, Midpoint(LastHeat(xs).value, LastCool(xs).value));
      SequenceModuloAuto(cfg, now, k, xs, centred.ac.auto);
      assert centred == WithAuto(k, centred.ac.auto);
    }
  }

  lemma {:induction false} EdgesOfConcat(xs: seq<WriteIntent>, ys: seq<WriteIntent>)
    ensures LastHeat(xs + ys) == if LastHeat(ys).Some? then LastHeat(ys) else LastHeat(xs)
    ensures LastCool(xs + ys) == if LastCool(ys).Some? then LastCool(ys) else LastCool(xs)
    ensures NonEdges(xs + ys) == NonEdges(xs) + NonEdges(ys)
  {
    if ys == [] {
      assert xs + ys == xs;
    } else {
      EdgesOfConcat(xs, ys[..|ys| - 1]);
      assert (xs + ys)[..|xs + ys| - 1] == xs + ys[..|ys| - 1];
    }
  }

  /** In a collapsing bundle an edge that a later edge of its kind overrides, wherever
      it stands, might as well not be there. */
  lemma OverriddenEdgeIsIgnored(
      cfg: Config, now: int, k: KernelState, before: seq<WriteIntent>, edge: WriteIntent, after: seq<WriteIntent>)
    requires IsEdge(edge) && Collapses(k, before + [edge] + after)
    requires if edge.SetHeatingSetpoint? then LastHeat(after).Some? else LastCool(after).Some?
    ensures ApplyBundle(cfg, now, k, before + [edge] + after) == ApplyBundle(cfg, now, k, before + after)
  {
    EdgesOfConcat(before, [edge]);
    EdgesOfConcat(before + [edge], after);
    EdgesOfConcat(before, after);
    assert [edge][..0] == [];
  }

  predicate FitsBand(cfg: Config, centre: int) {
    && -0x8000 <= centre + cfg.halfWidth < 0x8000
    && -0x8000 <= centre - cfg.halfWidth < 0x8000
  }

  /** Half of a sum, an odd one rounded toward zero. */
  predicate IsHalf(m: int, sum: int) {
    if sum >= 0 then 2 * m <= sum <= 2 * m + 1 else 2 * m - 1 <= sum <= 2 * m
  }

  lemma MidpointIs(a: int16, b: int16, m: int16)
    requires IsHalf(m, a + b)
    ensures Midpoint(a, b) == m
  {
  }

  /** An edge write that gets past the guard lands on the middle of the new edge and
      the other edge of the wanted band. */
  lemma EdgePulls(cfg: Config, now: int, k: KernelState, i: WriteIntent, centre: int16)
    requires k.ac.mode.observed == OperationalMode.Auto && IsEdge(i)
    requires FitsBand(cfg, k.ac.auto.desired) && WindowOver(cfg, now, k.stamps.auto)
    requires IsHalf(centre,
               k.ac.auto.desired + (if i.SetHeatingSetpoint? then cfg.halfWidth else -cfg.halfWidth) + i.value)
    ensures ApplyIntent(cfg, now, k, i) == WithAuto(k, k.ac.auto.WithDesired(centre))
  {
  }

  /** Moving both edges of the wanted band by the same amount moves the centre by
      exactly that amount, whatever else the bundle holds. */
  lemma BundleTranslatesBand(cfg: Config, now: int, k: KernelState, xs: seq<WriteIntent>, delta: int)
    requires k.ac.mode.observed == OperationalMode.Auto
    requires FitsBand(cfg, k.ac.auto.desired) && FitsBand(cfg, k.ac.auto.desired + delta)
    requires LastHeat(xs) == Some(k.ac.auto.desired + delta - cfg.halfWidth)
    requires LastCool(xs) == Some(k.ac.auto.desired + delta + cfg.halfWidth)
    requires k.ac.auto.desired + delta == k.ac.auto.observed || WindowOver(cfg, now, k.stamps.auto)
    ensures ApplyBundle(cfg, now, k, xs).ac.auto == k.ac.auto.WithDesired(k.ac.auto.desired + delta)
  {
    BundleIsSequenceUpToCentre(cfg, now, k, xs);
    MidpointIs(LastHeat(xs).value, LastCool(xs).value, k.ac.auto.desired + delta);
  }

  /** Heat edge first or cool edge first. */
  function EdgePair(cfg: Config, centre: int, heatFirst: bool): seq<WriteIntent>
    requires FitsBand(cfg, centre)
  {
    var heat, cool := SetHeatingSetpoint(centre - cfg.halfWidth), SetCoolingSetpoint(centre + cfg.halfWidth);
    if heatFirst then [heat, cool] else [cool, heat]
  }

  lemma PairOfWrites(cfg: Config, now: int, k: KernelState, x: WriteIntent, y: WriteIntent)
    ensures ApplyAll(cfg, now, k, [x, y]) == ApplyIntent(cfg, now, ApplyIntent(cfg, now, k, x), y)
    ensures x.SetHeatingSetpoint? && y.SetCoolingSetpoint? ==>
              LastHeat([x, y]) == Some(x.value) && LastCool([x, y]) == Some(y.value)
    ensures x.SetCoolingSetpoint? && y.SetHeatingSetpoint? ==>
              LastHeat([x, y]) == Some(y.value) && LastCool([x, y]) == Some(x.value)
  {
    hide ApplyIntent;
    assert [x, y][..1] == [x] && [x][..0] == [];
    assert ApplyAll(cfg, now, k, [x]) == ApplyIntent(cfg, now, k, x);
    assert x.SetHeatingSetpoint? ==> LastHeat([x]) == Some(x.value);
    assert x.SetCoolingSetpoint? ==> LastCool([x]) == Some(x.value);
  }
  lemma HalfwayTwice(d: int, y: int)
    ensures var half := TruncDiv(d + y, 2);
            var r := TruncDiv(y + half, 2);
            && (d <= half <= y || y <= half <= d) && IsHalf(half, d + y) && IsHalf(r, y + half)
            && (0 <= d && 0 <= y ==> r == d + (y - d + (y - d) / 2) / 2)
            && (r == y <==> (y >= 0 && 0 <= d - y <= 3) || (y <= 0 && 0 <= y - d <= 3))
  {
  }

  lemma PairPulls(
      cfg: Config, now: int, k: KernelState, centre: int16, heatFirst: bool, half: int16, end: int16)
    requires k.ac.mode.observed == OperationalMode.Auto
    requires FitsBand(cfg, k.ac.auto.desired) && FitsBand(cfg, centre) && FitsBand(cfg, half)
    requires WindowOver(cfg, now, k.stamps.auto)
    requires IsHalf(half, k.ac.auto.desired + centre) && IsHalf(end, centre + half)
    ensures ApplyAll(cfg, now, k, EdgePair(cfg, centre, heatFirst)).ac.auto.desired == end
  {
    hide ApplyIntent, ApplyAll, IsHalf, WindowOver;
    var d, w := k.ac.auto.desired, cfg.halfWidth;
    var heat, cool := SetHeatingSetpoint(centre - w), SetCoolingSetpoint(centre + w);
    var x, y := if heatFirst then heat else cool, if heatFirst then cool else heat;
    assert IsHalf(half, d + (if heatFirst then w else -w) + x.value);
    assert IsHalf(end, half + (if heatFirst then -w else w) + y.value);
    EdgePulls(cfg, now, k, x, half);
    EdgePulls(cfg, now, WithAuto(k, k.ac.auto.WithDesired(half)), y, end);
    PairOfWrites(cfg, now, k, x, y);
  }

  /** The same two writes one by one, in either order: the first takes the centre half of
      the way to the new one, the second half of the rest, both rounded toward zero. So
      the new centre is reached only from up to three hundredths of a degree away, and
      only from the side of it that is farther from zero. */
  lemma SequenceFallsShort(cfg: Config, now: int, k: KernelState, centre: int16, heatFirst: bool)
    requires k.ac.mode.observed == OperationalMode.Auto
    requires FitsBand(cfg, k.ac.auto.desired) && FitsBand(cfg, centre)
    requires WindowOver(cfg, now, k.stamps.auto)
    ensures var d := k.ac.auto.desired;
            var r := ApplyAll(cfg, now, k, EdgePair(cfg, centre, heatFirst)).ac.auto.desired;
            && (0 <= d && 0 <= centre ==> r == d + (centre - d + (centre - d) / 2) / 2)
            && (r == centre <==> (centre >= 0 && 0 <= d - centre <= 3) || (centre <= 0 && 0 <= centre - d <= 3))
  {
    hide ApplyAll;
    var d := k.ac.auto.desired;
    HalfwayTwice(d, centre);
    var half := TruncDiv(d + centre, 2);
    PairPulls(cfg, now, k, centre, heatFirst, half, TruncDiv(centre + half, 2));
  }

  /** The bundle of the same two writes arrives from anywhere. */
  lemma BundleArrives(cfg: Config, now: int, k: KernelState, centre: int16, heatFirst: bool)
    requires k.ac.mode.observed == OperationalMode.Auto
    requires FitsBand(cfg, k.ac.auto.desired) && FitsBand(cfg, centre)
    requires centre == k.ac.auto.observed || WindowOver(cfg, now, k.stamps.auto)
    ensures ApplyBundle(cfg, now, k, EdgePair(cfg, centre, heatFirst)).ac.auto.desired == centre
  {
    hide ApplyBundle, ApplyIntent, ApplyAll, LastHeat, LastCool;
    var heat, cool := SetHeatingSetpoint(centre - cfg.halfWidth), SetCoolingSetpoint(centre + cfg.halfWidth);
    PairOfWrites(cfg, now, k, heat, cool);
    PairOfWrites(cfg, now, k, cool, heat);
    BundleTranslatesBand(cfg, now, k, EdgePair(cfg, centre, heatFirst), centre - k.ac.auto.desired);
  }
}
