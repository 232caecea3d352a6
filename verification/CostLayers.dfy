/**
 The four cost layers of a supplier's bid (services/cost_engineering_service.py):
 missing layers are filled in, and what is left of the bid is spread over all.
 Amounts are exact; the amounts found in the text are an input.
 */
module CostLayers {
  import opened Wrappers
  import opened Money

  datatype Layer = Material | Freight | Operational | Margin

  const LAYERS := [Material, Freight, Operational, Margin]

  function Share(l: Layer): real {
    match l
    case Material => 0.68
    case Freight => 0.12
    case Operational => 0.10
    case Margin => 0.10
  }

  type Layers = map<Layer, real>

  function At(f: Layers, l: Layer): real {
    if l in f then f[l] else 0.0
  }

  function Sum(f: Layers): real {
    At(f, Material) + At(f, Freight) + At(f, Operational) + At(f, Margin)
  }

  predicate AllFour(f: Layers) {
    Material in f && Freight in f && Operational in f && Margin in f
  }

  predicate NotNegative(f: Layers) {
    At(f, Material) >= 0.0 && At(f, Freight) >= 0.0 && At(f, Operational) >= 0.0 && At(f, Margin) >= 0.0
  }

  function ShareIfMissing(f: Layers, l: Layer): real {
    if l in f then 0.0 else Share(l)
  }

  function MissingWeight(f: Layers): real {
    ShareIfMissing(f, Material) + ShareIfMissing(f, Freight) + ShareIfMissing(f, Operational) + ShareIfMissing(f, Margin)
  }

  function OneIf(b: bool): int {
    if b then 1 else 0
  }

  function MissingCount(f: Layers): int {
    OneIf(Material !in f) + OneIf(Freight !in f) + OneIf(Operational !in f) + OneIf(Margin !in f)
  }

  /** What the bid leaves for the layers that were not found. */
  function Remaining(f: Layers, total: real): real {
    Round2(total - Sum(f))
  }

  function PartOf(f: Layers, l: Layer): real {
    if MissingWeight(f) == 0.0 then 0.0 else Share(l) / MissingWeight(f)
  }

  function Due(f: Layers, remaining: real, l: Layer): real {
    remaining * PartOf(f, l)
  }

  function Offered(f: Layers, remaining: real, l: Layer): real {
    Round2(Due(f, remaining, l))
  }

  predicate FillsIn(f: Layers, total: real) {
    f == map[] || (MissingCount(f) > 0 && Remaining(f, total) > 0.0)
  }

  function FilledAt(f: Layers, total: real, l: Layer): real {
    if f == map[] then Round2(total * Share(l))
    else if l in f then f[l]
    else if MissingCount(f) == 1 then Remaining(f, total)
    else Offered(f, Remaining(f, total), l)
  }

  /** The layers found, and the rest of the bid in place of those that were not. */
  function Filled(f: Layers, total: real): Layers {
    if !FillsIn(f, total) then f
    else
      map[Material := FilledAt(f, total, Material), Freight := FilledAt(f, total, Freight),
          Operational := FilledAt(f, total, Operational), Margin := FilledAt(f, total, Margin)]
  }

  predicate Drifts(f: Layers, total: real) {
    Abs(Remaining(f, total)) >= 0.01 && Sum(f) > 0.0
  }

  /** One layer with its part of the drift. */
  function Adjusted(v: real, sum: real, drift: real): real
    requires sum > 0.0
  {
    v + drift * (v / sum)
  }

  function SpreadAt(v: real, sum: real, drift: real): real
    requires sum > 0.0
  {
    Round2(Adjusted(v, sum, drift))
  }

  /** The drift of the sum from the total is spread in proportion. */
  function Spread(f: Layers, total: real): Layers {
    if Drifts(f, total) then map l | l in f :: SpreadAt(f[l], Sum(f), Remaining(f, total)) else f
  }

  function Extracted(captured: Layers, total: real): Layers {
    Spread(Filled(captured, total), total)
  }

  lemma WeightIsPositive(f: Layers)
    ensures MissingCount(f) > 0 <==> MissingWeight(f) > 0.0
    ensures f != map[] ==> MissingCount(f) < 4
    ensures AllFour(f) <==> MissingCount(f) == 0
  {
    if l :| l in f {
      match l {
        case Material =>
        case Freight =>
        case Operational =>
        case Margin =>
      }
    }
  }

  // ----- the loops over the dictionary ---------------------------------------------------

  lemma EveryLayer(l: Layer)
    ensures l in LAYERS
  {
    assert l == LAYERS[0] || l == LAYERS[1] || l == LAYERS[2] || l == LAYERS[3];
  }

  method ExtractLayerAmounts(captured: Layers, total: real) returns (found: Layers)
    ensures found == Extracted(captured, total)
  {
    found := captured;
    if found != map[] {
      var missing := MissingLayers(found);
      var remaining := Round2(total - Sum(found));
      WeightIsPositive(captured);
      if |missing| == 1 && remaining > 0.0 {
        assert forall l | l !in captured :: l == missing[0];
        found := found[missing[0] := remaining];
        IsFilled(found, captured, total);
      } else if |missing| > 0 && remaining > 0.0 {
        found := FillByWeight(found, missing, remaining);
        IsFilled(found, captured, total);
      }
    } else {
      found := FillByShare(total);
      IsFilled(found, captured, total);
    }
    found := SpreadDrift(found, total);
  }

  lemma IsFilled(found: Layers, f: Layers, total: real)
    requires FillsIn(f, total)
    requires forall l :: l in found && found[l] == FilledAt(f, total, l)
    ensures found == Filled(f, total)
  {
    FilledHolds(f, total);
  }

  lemma FilledHolds(f: Layers, total: real)
    requires FillsIn(f, total)
    ensures forall l :: l in Filled(f, total) && Filled(f, total)[l] == FilledAt(f, total, l)
  {
    forall l: Layer
      ensures l in Filled(f, total) && Filled(f, total)[l] == FilledAt(f, total, l)
    {
      match l {
        case Material =>
        case Freight =>
        case Operational =>
        case Margin =>
      }
    }
  }

  method MissingLayers(found: Layers) returns (missing: seq<Layer>)
    ensures forall l :: l in missing <==> l !in found
    ensures |missing| == MissingCount(found)
    ensures |missing| > 0 ==> missing[0] !in found
  {
    missing := [];
    for k := 0 to |LAYERS|
      invariant forall l :: l in missing <==> l in LAYERS[..k] && l !in found
      invariant |missing| == (if k > 0 then OneIf(Material !in found) else 0) + (if k > 1 then OneIf(Freight !in found) else 0)
                + (if k > 2 then OneIf(Operational !in found) else 0) + (if k > 3 then OneIf(Margin !in found) else 0)
    {
      assert LAYERS[..k+1] == LAYERS[..k] + [LAYERS[k]];
      if LAYERS[k] !in found {
        missing := missing + [LAYERS[k]];
      }
    }
    assert LAYERS[..|LAYERS|] == LAYERS;
    forall l: Layer {
      EveryLayer(l);
    }
    assert |missing| > 0 ==> missing[0] in missing;
  }

  /** Several layers are missing: each takes its share of the rest. */
  method FillByWeight(captured: Layers, missing: seq<Layer>, remaining: real) returns (found: Layers)
    requires forall l :: l in missing <==> l !in captured
    requires MissingWeight(captured) > 0.0
    ensures forall l: Layer :: l in found
    ensures forall l :: found[l] == if l in captured then captured[l] else Offered(captured, remaining, l)
  {
    found := captured;
    for k := 0 to |missing|
      invariant forall l :: l in found <==> l in captured || l in missing[..k]
      invariant forall l | l in found :: found[l] == if l in captured then captured[l] else Offered(captured, remaining, l)
    {
      assert missing[k] in missing;
      found := found[missing[k] := Offered(captured, remaining, missing[k])];
    }
    assert missing[..|missing|] == missing;
  }

  lemma FirstLayers(k: nat)
    requires k < |LAYERS|
    ensures forall l :: l in LAYERS[..k+1] <==> l in LAYERS[..k] || l == LAYERS[k]
  {
    assert LAYERS[..k+1] == LAYERS[..k] + [LAYERS[k]];
  }

  /** Nothing was found: each layer takes its share of the total. */
  method FillByShare(total: real) returns (found: Layers)
    ensures forall l: Layer :: l in found && found[l] == Round2(total * Share(l))
  {
    found := map[];
    for k := 0 to |LAYERS|
      invariant forall l :: l in found <==> l in LAYERS[..k]
      invariant forall l | l in found :: found[l] == Round2(total * Share(l))
    {
      FirstLayers(k);
      found := found[LAYERS[k] := Round2(total * Share(LAYERS[k]))];
      assert forall l :: l in found <==> l in LAYERS[..k] || l == LAYERS[k];
    }
    assert LAYERS[..|LAYERS|] == LAYERS;
    forall l: Layer {
      EveryLayer(l);
    }
  }

  /** The last loop, which rewrites each layer in place. */
  method SpreadDrift(filled: Layers, total: real) returns (found: Layers)
    ensures found == Spread(filled, total)
  {
    found := filled;
    var drift := Round2(total - Sum(found));
    if Abs(drift) >= 0.01 && found != map[] {
      var layerSum := Sum(found);
      if layerSum > 0.0 {
        for k := 0 to |LAYERS|
          invariant found.Keys == filled.Keys
          invariant forall l | l in found && l in LAYERS[..k] :: found[l] == SpreadAt(filled[l], layerSum, drift)
          invariant forall l | l in found && l !in LAYERS[..k] :: found[l] == filled[l]
        {
          var l := LAYERS[k];
          assert l !in LAYERS[..k];
          if l in found {
            found := found[l := SpreadAt(found[l], layerSum, drift)];
          }
        }
        assert LAYERS[..|LAYERS|] == LAYERS;
        forall l: Layer {
          EveryLayer(l);
        }
      }
    }
  }

  // ----- the drift correction -----------------------------------------------------------

  /** `q` is the layer's part of the sum. */
  lemma AdjustedIsPart(v: real, sum: real, drift: real) returns (q: real)
    requires sum > 0.0 && 0.0 <= v <= sum
    ensures 0.0 <= q <= 1.0 && Adjusted(v, sum, drift) == q * (sum + drift) && q * sum == v
  {
    q := v / sum;
    assert q * sum == v;
  }

  /** The total is positive, so the adjusted layer is hardly ever negative, and never by half a cent. */
  lemma AdjustedIsBounded(v: real, sum: real, drift: real)
    requires sum > 0.0 && 0.0 <= v <= sum && sum + drift > -0.005
    ensures Adjusted(v, sum, drift) > -0.005
    ensures sum + drift < 0.0 ==> Adjusted(v, sum, drift) <= 0.0
  {
    var q := AdjustedIsPart(v, sum, drift);
    PartIsBounded(Adjusted(v, sum, drift), q, sum + drift);
  }

  lemma PartIsBounded(x: real, q: real, t: real)
    requires 0.0 <= q <= 1.0 && t > -0.005 && x == q * t
    ensures x > -0.005 && (t < 0.0 ==> x <= 0.0)
  {
    if t >= 0.0 {
      MulMonotone(0.0, q, t);
    } else {
      MulMonotone(q, 1.0, -t);
      MulMonotone(0.0, q, -t);
    }
  }

  /** Spread layers keep their order. */
  lemma SpreadKeepsOrder(v: real, w: real, sum: real, drift: real)
    requires sum > 0.0 && 0.0 <= v <= w <= sum && sum + drift > -0.005
    ensures SpreadAt(v, sum, drift) <= SpreadAt(w, sum, drift)
  {
    AdjustedIsBounded(v, sum, drift);
    AdjustedIsBounded(w, sum, drift);
    var x, y := Adjusted(v, sum, drift), Adjusted(w, sum, drift);
    if sum + drift >= 0.0 {
      OrderedParts(x, y, v, w, sum, sum + drift);
      Round2IsMonotone(x, y);
    } else {
      Round2OfLittle(x);
      Round2OfLittle(y);
    }
  }

  lemma OrderedParts(x: real, y: real, v: real, w: real, sum: real, t: real)
    requires sum > 0.0 && t >= 0.0 && v <= w && x * sum == v * t && y * sum == w * t
    ensures x <= y
  {
    MulMonotone(v, w, t);
  }

  lemma Distribute(x: real, a: real, b: real, c: real, d: real)
    requires a + b + c + d == 1.0
    ensures x * a + x * b + x * c + x * d == x
  {
  }

  lemma AdjustedTotal(v1: real, v2: real, v3: real, v4: real, sum: real, drift: real)
    requires sum == v1 + v2 + v3 + v4 > 0.0
    ensures Adjusted(v1, sum, drift) + Adjusted(v2, sum, drift) + Adjusted(v3, sum, drift) + Adjusted(v4, sum, drift) == sum + drift
  {
    Distribute(drift, v1 / sum, v2 / sum, v3 / sum, v4 / sum);
  }

  lemma SpreadSum(v1: real, v2: real, v3: real, v4: real, sum: real, drift: real, total: real)
    requires v1 >= 0.0 && v2 >= 0.0 && v3 >= 0.0 && v4 >= 0.0 && total > 0.0 && sum == v1 + v2 + v3 + v4 > 0.0
    requires Abs(sum + drift - total) <= 0.005
    ensures Abs(SpreadAt(v1, sum, drift) + SpreadAt(v2, sum, drift) + SpreadAt(v3, sum, drift) + SpreadAt(v4, sum, drift) - total) <= 0.025
  {
    AdjustedTotal(v1, v2, v3, v4, sum, drift);
  }

  lemma SpreadNotNegative(v: real, sum: real, drift: real)
    requires sum > 0.0 && 0.0 <= v <= sum && sum + drift > -0.005
    ensures SpreadAt(v, sum, drift) >= 0.0
  {
    AdjustedIsBounded(v, sum, drift);
  }

  lemma SpreadAddsUp(f: Layers, total: real)
    requires AllFour(f) && NotNegative(f) && total > 0.0 && Drifts(f, total)
    ensures Abs(Sum(Spread(f, total)) - total) <= 0.025 && NotNegative(Spread(f, total))
  {
    var sum, drift := Sum(f), Remaining(f, total);
    Round2IsNear(total - sum);
    SpreadSum(f[Material], f[Freight], f[Operational], f[Margin], sum, drift, total);
    SpreadNotNegative(f[Material], sum, drift);
    SpreadNotNegative(f[Freight], sum, drift);
    SpreadNotNegative(f[Operational], sum, drift);
    SpreadNotNegative(f[Margin], sum, drift);
  }

  // ----- who gets how much --------------------------------------------------------------------

  /** Of a bid without any layer, 68, 12, 10 and 10 percent. */
  lemma NothingFound()
    ensures Extracted(map[], 100.0) == map[Material := 68.0, Freight := 12.0, Operational := 10.0, Margin := 10.0]
  {
    assert 100.0 * Share(Material) == 68.0 && 100.0 * Share(Freight) == 12.0;
    assert 100.0 * Share(Operational) == 100.0 * Share(Margin) == 10.0;
    assert Round2(68.0) == 68.0 && Round2(12.0) == 12.0 && Round2(10.0) == 10.0;
    assert Round2(0.0) == 0.0;
  }

  /** What is filled in for missing layers is in the proportion of their shares, to the half cent: one factor `x` for
      all of them, which gives out all that remains; what was found stays. */
  lemma FillIsProportional(captured: Layers, total: real) returns (x: real)
    requires captured != map[] && FillsIn(captured, total)
    ensures x * MissingWeight(captured) == Remaining(captured, total)
    ensures forall l | l in captured :: At(Filled(captured, total), l) == captured[l]
    ensures forall l | l !in captured :: Abs(At(Filled(captured, total), l) - x * Share(l)) <= 0.005
  {
    WeightIsPositive(captured);
    x := FactorOf(Remaining(captured, total), MissingWeight(captured));
    FilledHolds(captured, total);
    forall l: Layer
      ensures At(Filled(captured, total), l) == FilledAt(captured, total, l)
    {
    }
    forall l | l !in captured
      ensures Abs(FilledAt(captured, total, l) - x * Share(l)) <= 0.005
    {
      FilledIsNear(captured, total, l, x);
    }
  }

  lemma FactorOf(remaining: real, weight: real) returns (x: real)
    requires weight > 0.0
    ensures x == remaining / weight && x * weight == remaining
  {
    x := remaining / weight;
    QuotientTimes(remaining, weight);
  }

  lemma FilledIsNear(f: Layers, total: real, l: Layer, x: real)
    requires f != map[] && l !in f && MissingWeight(f) > 0.0 && x == Remaining(f, total) / MissingWeight(f)
    ensures Abs(FilledAt(f, total, l) - x * Share(l)) <= 0.005
  {
    if MissingCount(f) == 1 {
      OnlyWeight(f, l);
      QuotientTimes(Remaining(f, total), MissingWeight(f));
      AllIsNear(FilledAt(f, total, l), x, Share(l));
    } else {
      PartIsNear(f, Remaining(f, total), l);
    }
  }

  lemma PartIsNear(f: Layers, r: real, l: Layer)
    requires l !in f && MissingWeight(f) > 0.0
    ensures Abs(Offered(f, r, l) - r / MissingWeight(f) * Share(l)) <= 0.005
  {
    DueIsProduct(f, r, l);
    ShareIsNear(Due(f, r, l), r, ShareIfMissing(f, l), MissingWeight(f));
  }

  lemma AllIsNear(r: real, x: real, w: real)
    requires x * w == r
    ensures Abs(r - x * w) <= 0.005
  {
  }

  lemma ShareIsNear(due: real, r: real, s: real, w: real)
    requires w > 0.0 && due == r * (s / w)
    ensures Abs(Round2(due) - r / w * s) <= 0.005
  {
    SharePart(r, s, w);
    Round2IsNear(due);
  }

  lemma OnlyWeight(f: Layers, l: Layer)
    requires MissingCount(f) == 1 && l !in f
    ensures MissingWeight(f) == Share(l)
  {
  }

  lemma SharePart(r: real, s: real, w: real)
    requires w > 0.0
    ensures r * (s / w) == r / w * s
  {
    assert (r * (s / w)) * w == r * s && (r / w * s) * w == r * s;
  }

  /** The drift is spread in proportion to the layers, to the half cent: one factor `q` for all of them, which takes
      their sum to the total. */
  lemma SpreadIsProportional(f: Layers, total: real) returns (q: real)
    requires Drifts(f, total)
    ensures q * Sum(f) == Sum(f) + Remaining(f, total)
    ensures Spread(f, total).Keys == f.Keys
    ensures forall l | l in f :: Abs(Spread(f, total)[l] - q * f[l]) <= 0.005
  {
    q := SpreadFactor(Sum(f), Remaining(f, total));
    forall l | l in f
      ensures Abs(SpreadAt(f[l], Sum(f), Remaining(f, total)) - q * f[l]) <= 0.005
    {
      SpreadIsNear(f[l], Sum(f), Remaining(f, total));
    }
  }

  lemma SpreadFactor(sum: real, drift: real) returns (q: real)
    requires sum > 0.0
    ensures q == 1.0 + drift / sum && q * sum == sum + drift
  {
    q := 1.0 + drift / sum;
    QuotientTimes(drift, sum);
    TimesOneMore(drift / sum, sum);
  }

  lemma TimesOneMore(a: real, b: real)
    ensures (1.0 + a) * b == b + a * b
  {
  }

  lemma SpreadIsNear(v: real, sum: real, drift: real)
    requires sum > 0.0
    ensures Abs(SpreadAt(v, sum, drift) - (1.0 + drift / sum) * v) <= 0.005
  {
    SharePart(drift, v, sum);
    TimesOneMore(drift / sum, v);
    Round2IsNear(Adjusted(v, sum, drift));
  }

  // ----- what the layers add up to -----------------------------------------------------------

  lemma OfferedNotNegative(f: Layers, remaining: real, l: Layer)
    requires remaining >= 0.0
    ensures Offered(f, remaining, l) >= 0.0
  {
    MulMonotone(0.0, remaining, PartOf(f, l));
  }

  lemma FilledAtNotNegative(f: Layers, total: real, l: Layer)
    requires NotNegative(f) && total > 0.0 && FillsIn(f, total)
    ensures FilledAt(f, total, l) >= 0.0
  {
    if f != map[] {
      OfferedNotNegative(f, Remaining(f, total), l);
      assert l in f ==> At(f, l) >= 0.0;
    }
  }

  lemma FilledNotNegative(f: Layers, total: real)
    requires NotNegative(f) && total > 0.0
    ensures NotNegative(Filled(f, total))
  {
    if FillsIn(f, total) {
      FilledAtNotNegative(f, total, Material);
      FilledAtNotNegative(f, total, Freight);
      FilledAtNotNegative(f, total, Operational);
      FilledAtNotNegative(f, total, Margin);
    }
  }

  /** Four layers come back exactly when none was found, all were found, or something was left for the rest;
      otherwise the bid is refused with a KeyError. */
  lemma AllFourIff(captured: Layers, total: real)
    ensures AllFour(Extracted(captured, total)) <==>
              captured == map[] || AllFour(captured) || Round2(total - Sum(captured)) > 0.0
  {
    WeightIsPositive(captured);
    assert Extracted(captured, total).Keys == Filled(captured, total).Keys;
  }

  /** What a missing layer was due, when rounding left nothing of it. */
  lemma NothingLeft(f: Layers, total: real, l: Layer)
    requires f != map[] && l !in f && MissingCount(f) != 1 && FilledAt(f, total, l) == 0.0
    ensures Due(f, Remaining(f, total), l) <= 0.005
  {
  }

  /** If nothing at all is there after filling in, the bid was a matter of one or two cents. */
  lemma EmptyFillIsSmall(f: Layers, total: real)
    requires NotNegative(f) && total > 0.0 && FillsIn(f, total)
    requires forall l: Layer :: FilledAt(f, total, l) == 0.0
    ensures total <= 0.02
  {
    WeightIsPositive(f);
    if f == map[] {
      assert FilledAt(f, total, Material) == Round2(total * 0.68);
      Round2IsNear(total * 0.68);
    } else {
      assert forall l | l in f :: FilledAt(f, total, l) == f[l];
      assert Sum(f) == 0.0;
      Round2IsNear(total);
      assert MissingCount(f) != 1 by {
        assert forall l | l !in f && MissingCount(f) == 1 :: FilledAt(f, total, l) == Remaining(f, total);
      }
      ShareOut(f, total);
    }
  }

  function DueIfMissing(f: Layers, remaining: real, l: Layer): real {
    if l in f then 0.0 else Due(f, remaining, l)
  }

  lemma SharesAddUp(x: real, a: real, b: real, c: real, d: real, sum: real)
    requires a + b + c + d == sum > 0.0
    ensures x * (a / sum) + x * (b / sum) + x * (c / sum) + x * (d / sum) == x
  {
    Distribute(x, a / sum, b / sum, c / sum, d / sum);
  }

  /** What the missing layers are due is all that remains. */
  lemma DuesAddUp(f: Layers, remaining: real)
    requires MissingWeight(f) > 0.0
    ensures DueIfMissing(f, remaining, Material) + DueIfMissing(f, remaining, Freight) +
            DueIfMissing(f, remaining, Operational) + DueIfMissing(f, remaining, Margin) == remaining
  {
    SharesAddUp(remaining, ShareIfMissing(f, Material), ShareIfMissing(f, Freight),
                ShareIfMissing(f, Operational), ShareIfMissing(f, Margin), MissingWeight(f));
    DueIsProduct(f, remaining, Material);
    DueIsProduct(f, remaining, Freight);
    DueIsProduct(f, remaining, Operational);
    DueIsProduct(f, remaining, Margin);
  }

  lemma DueIsProduct(f: Layers, remaining: real, l: Layer)
    requires MissingWeight(f) > 0.0
    ensures DueIfMissing(f, remaining, l) == remaining * (ShareIfMissing(f, l) / MissingWeight(f))
  {
    if l in f {
      assert 0.0 / MissingWeight(f) == 0.0;
    }
  }

  function Allowance(f: Layers, l: Layer): real {
    if l in f then 0.0 else 0.005
  }

  lemma OneShare(f: Layers, total: real, l: Layer) returns (due: real)
    requires f != map[] && MissingCount(f) > 1 && (l !in f ==> FilledAt(f, total, l) == 0.0)
    ensures due == DueIfMissing(f, Remaining(f, total), l) <= Allowance(f, l)
  {
    due := DueIfMissing(f, Remaining(f, total), l);
    if l !in f {
      NothingLeft(f, total, l);
    }
  }

  lemma ShareOut(f: Layers, total: real)
    requires f != map[] && MissingCount(f) > 1
    requires forall l: Layer :: l !in f ==> FilledAt(f, total, l) == 0.0
    ensures Remaining(f, total) <= 0.015
  {
    WeightIsPositive(f);
    DuesAddUp(f, Remaining(f, total));
    var a := OneShare(f, total, Material);
    var b := OneShare(f, total, Freight);
    var c := OneShare(f, total, Operational);
    var d := OneShare(f, total, Margin);
    assert a + b + c + d == Remaining(f, total);
  }

  lemma SmallDriftIsNone(x: real)
    requires Abs(Round2(x)) < 0.01
    ensures Round2(x) == 0.0 && Abs(x) <= 0.005
  {
    var n := Nearest(x * 100.0);
    assert -1.0 < n as real < 1.0;
    assert n == 0;
    Round2IsNear(x);
  }

  /**
   Of a positive bid, the four layers add up to the total within two and a half cents, unless all four
   were found and every one of them is zero; none of them is negative.
   */
  lemma LayersAddUp(captured: Layers, total: real)
    requires NotNegative(captured) && total > 0.0 && AllFour(Extracted(captured, total))
    ensures NotNegative(Extracted(captured, total))
    ensures Abs(Sum(Extracted(captured, total)) - total) <= 0.025 <==>
              !(AllFour(captured) && Sum(captured) == 0.0 && total > 0.025)
  {
    var f := Filled(captured, total);
    FilledNotNegative(captured, total);
    WeightIsPositive(captured);
    assert Spread(f, total).Keys == f.Keys;
    if Drifts(f, total) {
      SpreadAddsUp(f, total);
    } else if Abs(Remaining(f, total)) < 0.01 {
      SmallDriftIsNone(total - Sum(f));
    } else if FillsIn(captured, total) {
      FilledHolds(captured, total);
      forall l: Layer
        ensures FilledAt(captured, total, l) == 0.0
      {
        assert At(f, l) == FilledAt(captured, total, l);
        EveryLayer(l);
      }
      EmptyFillIsSmall(captured, total);
    }
  }

  /** No layer overtakes another when the drift is spread. */
  lemma LayersKeepOrder(captured: Layers, total: real, l: Layer, m: Layer)
    requires NotNegative(captured) && total > 0.0 && AllFour(Extracted(captured, total))
    requires At(Filled(captured, total), l) <= At(Filled(captured, total), m)
    ensures At(Extracted(captured, total), l) <= At(Extracted(captured, total), m)
  {
    var f := Filled(captured, total);
    FilledNotNegative(captured, total);
    assert Spread(f, total).Keys == f.Keys;
    Round2IsNear(total - Sum(f));
    if Drifts(f, total) {
      assert At(f, l) >= 0.0 && At(f, m) <= Sum(f);
      SpreadKeepsOrder(At(f, l), At(f, m), Sum(f), Remaining(f, total));
    }
  }

  // ----- the matrix ----------------------------------------------------------------------------

  datatype Matrix = Matrix(layers: Layers, total: real, pcts: Layers)

  function Percentage(v: real, total: real): real {
    if total == 0.0 then 0.0 else Round2(v / total * 100.0)
  }

  /** The matrix of `parse_supplier_bid`; None stands for its KeyError. */
  function MatrixOf(captured: Layers, total: real): Option<Matrix> {
    var layers := Extracted(captured, total);
    if !AllFour(layers) then None
    else
      var t := Round2(Sum(layers));
      Some(Matrix(layers, t, map l | l in layers :: Percentage(layers[l], t)))
  }

  lemma OwnPercentage(v: real, total: real)
    requires total != 0.0
    ensures Abs(Percentage(v, total) - v / total * 100.0) <= 0.005
  {
    Round2IsNear(v / total * 100.0);
  }

  /** Each percentage is that of its own layer in the rounded sum of all four; of an empty sum all are zero. */
  lemma PercentagesAreOwn(captured: Layers, total: real, l: Layer)
    requires MatrixOf(captured, total).Some?
    ensures var m := MatrixOf(captured, total).value;
            && m.layers == Extracted(captured, total) && l in m.layers && l in m.pcts
            && Abs(m.total - (m.layers[Material] + m.layers[Freight] + m.layers[Operational] + m.layers[Margin])) <= 0.005
            && if m.total == 0.0 then m.pcts[l] == 0.0 else Abs(m.pcts[l] - m.layers[l] / m.total * 100.0) <= 0.005
  {
    var m := MatrixOf(captured, total).value;
    Round2IsNear(Sum(m.layers));
    match l {
      case Material =>
      case Freight =>
      case Operational =>
      case Margin =>
    }
    if m.total != 0.0 {
      OwnPercentage(m.layers[l], m.total);
    }
  }

  lemma QuotientsAdd(a: real, b: real, c: real, d: real, t: real) returns (q: real)
    requires t > 0.0
    ensures q == a / t + b / t + c / t + d / t && q * t == a + b + c + d
  {
    q := a / t + b / t + c / t + d / t;
    assert (a / t) * t == a && (b / t) * t == b && (c / t) * t == c && (d / t) * t == d;
    assert q * t == (a / t) * t + (b / t) * t + (c / t) * t + (d / t) * t;
  }

  lemma PercentagesNear(a: real, b: real, c: real, d: real, t: real)
    requires t > 0.0 && Abs(t - (a + b + c + d)) <= 0.005
    ensures Abs(Percentage(a, t) + Percentage(b, t) + Percentage(c, t) + Percentage(d, t) - 100.0) <= 0.02 + 0.5 / t
  {
    var q := QuotientsAdd(a, b, c, d, t);
    NearOne(q, t);
    Round2IsNear(a / t * 100.0);
    Round2IsNear(b / t * 100.0);
    Round2IsNear(c / t * 100.0);
    Round2IsNear(d / t * 100.0);
  }

  /** The percentages add up to one hundred, give or take the rounding of the four of them and of the total. */
  lemma PercentagesAddUp(captured: Layers, total: real)
    requires MatrixOf(captured, total).Some? && MatrixOf(captured, total).value.total > 0.0
    ensures var m := MatrixOf(captured, total).value;
            Abs(Sum(m.pcts) - 100.0) <= 0.02 + 0.5 / m.total
  {
    var m := MatrixOf(captured, total).value;
    var f := m.layers;
    Round2IsNear(Sum(f));
    PercentagesNear(f[Material], f[Freight], f[Operational], f[Margin], m.total);
  }

  lemma NearOne(q: real, t: real)
    requires t > 0.0 && Abs(t - q * t) <= 0.005
    ensures Abs(q * 100.0 - 100.0) <= 0.5 / t
  {
    var h := 0.5 / t;
    assert h * t == 0.5;
  }
}
