/** Per-incident scoring of Heatmap/backend_api.py: the rule-based incident
    classifier, the 9-slot feature vector, the fixed linear-logistic ranker,
    the severity weight and the zone quantizer. */
module Incidents {
  import opened Wrappers
  import opened Numeric
  import opened Text

  /** The parts of `full_telemetry` the core reads. Absent keys take the
      defaults the code supplies: an empty pair list, `""` for a missing
      status or `overall_risk`, `False` for a missing context factor. */
  datatype Telemetry = Telemetry(
    pairStatuses: seq<string>,    // behavior.pair_interactions[*].status
    overallRisk: string,          // behavior.overall_risk
    isolation: bool,              // context_factors.isolation
    nightMode: bool,              // context_factors.night_mode
    suddenAcceleration: bool)     // context_factors.sudden_acceleration

  /** An incident dictionary: a report payload or a stored record. A key that
      may be absent is an `Option`; `weapon_detected` and `is_critical` are
      read for truthiness (absent is false), `weapon_types` through
      `or []` (absent or None is the empty list). */
  datatype Record = Record(
    incidentId: Option<string>,
    timestamp: Option<string>,
    incidentType: Option<string>,   // "type", present on stored records
    modelRank: Option<real>,        // "model_rank", present on stored records
    threatLevel: Option<string>,
    threatScore: Option<real>,
    peopleCount: Option<int>,
    weaponDetected: bool,
    weaponTypes: seq<string>,
    behaviorSummary: Option<string>,
    isCritical: bool,
    telemetry: Telemetry,
    latitude: Option<real>,
    longitude: Option<real>,
    sourceId: Option<string>,
    mode: Option<string>,
    locationAccuracyM: Option<real>)

  /** The seven incident tags. */
  datatype IncidentType =
    | WeaponFirearm | WeaponBlade | Weapon
    | Following | RapidApproach | IsolationRisk | SuspiciousActivity
  {
    function Tag(): string
    {
      match this
      case WeaponFirearm => "weapon_firearm"
      case WeaponBlade => "weapon_blade"
      case Weapon => "weapon"
      case Following => "following"
      case RapidApproach => "rapid_approach"
      case IsolationRisk => "isolation_risk"
      case SuspiciousActivity => "suspicious_activity"
    }

    predicate IsWeapon()
    {
      this == WeaponFirearm || this == WeaponBlade || this == Weapon
    }
  }

  /** Distinct tags name distinct types, so the string tag identifies the rule that fired. */
  lemma TagInjective(a: IncidentType, b: IncidentType)
    requires a.Tag() == b.Tag()
    ensures a == b
  {
  }

  /** `any(word in p.get("status", "") for p in pairs)` */
  predicate AnyStatusContains(statuses: seq<string>, word: string)
  {
    exists k :: 0 <= k < |statuses| && Contains(statuses[k], word)
  }

  predicate HasBlade(weaponTypes: seq<string>)
  {
    "knife" in weaponTypes || "blade" in weaponTypes
  }

  /** `_derive_incident_type`: the first rule that matches decides the tag. */
  function DeriveIncidentType(it: Record): IncidentType
  {
    if it.weaponDetected then
      if "gun" in it.weaponTypes then WeaponFirearm
      else if HasBlade(it.weaponTypes) then WeaponBlade
      else Weapon
    else
      var bt := it.telemetry;
      if AnyStatusContains(bt.pairStatuses, "following") then Following
      else if AnyStatusContains(bt.pairStatuses, "approach") || Contains(bt.overallRisk, "high") then RapidApproach
      else if bt.isolation then IsolationRisk
      else SuspiciousActivity
  }

  /** Each tag is produced exactly under its rule's condition and the failure
      of every earlier rule; the weapon rules depend only on the weapon fields. */
  lemma DeriveIncidentTypeCharacterized(it: Record)
    ensures DeriveIncidentType(it).IsWeapon() <==> it.weaponDetected
    ensures DeriveIncidentType(it) == WeaponFirearm <==> it.weaponDetected && "gun" in it.weaponTypes
    ensures DeriveIncidentType(it) == WeaponBlade
      <==> it.weaponDetected && "gun" !in it.weaponTypes && HasBlade(it.weaponTypes)
    ensures DeriveIncidentType(it) == Weapon
      <==> it.weaponDetected && "gun" !in it.weaponTypes && !HasBlade(it.weaponTypes)
    ensures DeriveIncidentType(it) == Following
      <==> !it.weaponDetected && AnyStatusContains(it.telemetry.pairStatuses, "following")
    ensures DeriveIncidentType(it) == RapidApproach
      <==> && !it.weaponDetected
           && !AnyStatusContains(it.telemetry.pairStatuses, "following")
           && (AnyStatusContains(it.telemetry.pairStatuses, "approach") || Contains(it.telemetry.overallRisk, "high"))
    ensures DeriveIncidentType(it) == IsolationRisk
      <==> && !it.weaponDetected
           && !AnyStatusContains(it.telemetry.pairStatuses, "following")
           && !AnyStatusContains(it.telemetry.pairStatuses, "approach")
           && !Contains(it.telemetry.overallRisk, "high")
           && it.telemetry.isolation
  {
  }

  /** The classifier looks only at the weapon fields and the telemetry: two
      records that agree on those get the same tag. */
  lemma DeriveIncidentTypeDependsOnSignals(a: Record, b: Record)
    requires a.weaponDetected == b.weaponDetected && a.weaponTypes == b.weaponTypes
    requires a.telemetry == b.telemetry
    ensures DeriveIncidentType(a) == DeriveIncidentType(b)
  {
  }

  function Flag(b: bool): (x: real)
    ensures x == 0.0 || x == 1.0
    ensures x == 1.0 <==> b
  {
    if b then 1.0 else 0.0
  }

  /** Number of features the ranker reads. */
  const FeatureCount := 9

  /** `_extract_features`: `[threat_score, people_count, weapon_detected, gun,
      knife_or_blade, is_critical, isolation, night_mode, sudden_acceleration]`. */
  function ExtractFeatures(it: Record): (f: seq<real>)
    ensures |f| == FeatureCount
    ensures forall k :: 2 <= k < FeatureCount ==> f[k] == 0.0 || f[k] == 1.0
    ensures it.threatScore.Some? ==> f[0] == it.threatScore.value
    ensures it.threatScore.None? ==> f[0] == 0.0
    ensures it.peopleCount.Some? ==> f[1] == it.peopleCount.value as real
    ensures it.peopleCount.None? ==> f[1] == 0.0
    ensures f[2] == 1.0 <==> it.weaponDetected
    ensures f[3] == 1.0 <==> "gun" in it.weaponTypes
    ensures f[4] == 1.0 <==> HasBlade(it.weaponTypes)
    ensures f[5] == 1.0 <==> it.isCritical
    ensures f[6] == 1.0 <==> it.telemetry.isolation
    ensures f[7] == 1.0 <==> it.telemetry.nightMode
    ensures f[8] == 1.0 <==> it.telemetry.suddenAcceleration
  {
    var ctx := it.telemetry;
    [ it.threatScore.GetOr(0.0),
      it.peopleCount.GetOr(0) as real,
      Flag(it.weaponDetected),
      Flag("gun" in it.weaponTypes),
      Flag(HasBlade(it.weaponTypes)),
      Flag(it.isCritical),
      Flag(ctx.isolation),
      Flag(ctx.nightMode),
      Flag(ctx.suddenAcceleration) ]
  }

  /** `_ML_W` and `_ML_B`. */
  const Weights: seq<real> := [1.2, 0.25, 1.1, 1.6, 1.0, 0.8, 0.5, 0.2, 0.6]
  const Bias: real := -0.8

  function Dot(f: seq<real>, w: seq<real>): real
    requires |f| == |w|
  {
    if |f| == 0 then 0.0 else f[0] * w[0] + Dot(f[1..], w[1..])
  }

  /** `z = features.dot(_ML_W) + _ML_B` */
  function Logit(f: seq<real>): real
    requires |f| == FeatureCount
  {
    Dot(f, Weights) + Bias
  }

  /** `_model_rank`: the logistic of `z`, clamped to [0, 1]. `sigmoid` stands for
      `1 / (1 + exp(-z))`, which the model does not compute. */
  function ModelRank(f: seq<real>, sigmoid: real -> real): (r: real)
    requires |f| == FeatureCount
    ensures 0.0 <= r <= 1.0
  {
    Clamp(sigmoid(Logit(f)), 0.0, 1.0)
  }

  /** With non-negative weights the dot product is monotone in every slot. */
  lemma {:induction false} DotMonotone(f: seq<real>, g: seq<real>, w: seq<real>)
    requires |f| == |g| == |w|
    requires forall k :: 0 <= k < |w| ==> 0.0 <= w[k] && f[k] <= g[k]
    ensures Dot(f, w) <= Dot(g, w)
  {
    if |f| > 0 {
      MulMonotone(f[0], g[0], w[0]);
      DotMonotone(f[1..], g[1..], w[1..]);
    }
  }

  ghost predicate NonDecreasing(h: real -> real)
  {
    forall x, y :: x <= y ==> h(x) <= h(y)
  }

  /** Every weight is non-negative, so raising features never lowers `z`, and
      never lowers the rank when the logistic is non-decreasing. */
  lemma RankMonotone(f: seq<real>, g: seq<real>, sigmoid: real -> real)
    requires |f| == |g| == FeatureCount
    requires forall k :: 0 <= k < FeatureCount ==> f[k] <= g[k]
    ensures Logit(f) <= Logit(g)
    ensures NonDecreasing(sigmoid) ==> ModelRank(f, sigmoid) <= ModelRank(g, sigmoid)
  {
    DotMonotone(f, g, Weights);
    if NonDecreasing(sigmoid) {
      ClampMonotone(sigmoid(Logit(f)), sigmoid(Logit(g)), 0.0, 1.0);
    }
  }

  /** Raising one feature, the others held fixed, never lowers `z`. */
  lemma LogitMonotoneInSlot(f: seq<real>, k: nat, v: real)
    requires |f| == FeatureCount && k < FeatureCount && f[k] <= v
    ensures Logit(f) <= Logit(f[k := v])
  {
    RankMonotone(f, f[k := v], x => x);
  }

  /** `z` written out as the weighted sum of the nine features. */
  lemma LogitExpanded(f: seq<real>)
    requires |f| == FeatureCount
    ensures Logit(f) == 1.2 * f[0] + 0.25 * f[1] + 1.1 * f[2] + 1.6 * f[3] + 1.0 * f[4]
                        + 0.8 * f[5] + 0.5 * f[6] + 0.2 * f[7] + 0.6 * f[8] - 0.8
  {
    var w := Weights;
    assert Dot(f[8..], w[8..]) == f[8] * w[8] + Dot(f[9..], w[9..]);
    assert Dot(f[7..], w[7..]) == f[7] * w[7] + Dot(f[8..], w[8..]);
    assert Dot(f[6..], w[6..]) == f[6] * w[6] + Dot(f[7..], w[7..]);
    assert Dot(f[5..], w[5..]) == f[5] * w[5] + Dot(f[6..], w[6..]);
    assert Dot(f[4..], w[4..]) == f[4] * w[4] + Dot(f[5..], w[5..]);
    assert Dot(f[3..], w[3..]) == f[3] * w[3] + Dot(f[4..], w[4..]);
    assert Dot(f[2..], w[2..]) == f[2] * w[2] + Dot(f[3..], w[3..]);
    assert Dot(f[1..], w[1..]) == f[1] * w[1] + Dot(f[2..], w[2..]);
    assert Dot(f, w) == f[0] * w[0] + Dot(f[1..], w[1..]);
  }

  /** The worked example: score 0.9, two people, a detected gun, critical,
      no context factor gives `z = 4.28`. */
  lemma WorkedExample()
    ensures Logit([0.9, 2.0, 1.0, 1.0, 0.0, 1.0, 0.0, 0.0, 0.0]) == 4.28
  {
    LogitExpanded([0.9, 2.0, 1.0, 1.0, 0.0, 1.0, 0.0, 0.0, 0.0]);
  }

  /** `_severity_weight`'s level boost; `upper()` makes the lookup case-insensitive
      and an unknown level gets 0. */
  function LevelBoost(level: string): (b: real)
    ensures 0.0 <= b <= 0.35
  {
    var u := Upper(level);
    if u == "LOW" then 0.0
    else if u == "MEDIUM" then 0.10
    else if u == "HIGH" then 0.20
    else if u == "CRITICAL" then 0.35
    else 0.0
  }

  /** `_severity_weight`: 0.7 times the score clamped to [0, 1], plus the level
      boost, capped to [0, 0.99]. */
  function SeverityWeight(level: string, score: real): (w: real)
    ensures 0.0 <= w <= 0.99
  {
    var base := Clamp(score, 0.0, 1.0);
    Clamp(base * 0.7 + LevelBoost(level), 0.0, 0.99)
  }

  /** The score is clamped before weighting, the level is matched case-insensitively,
      and a level outside LOW/MEDIUM/HIGH/CRITICAL adds nothing. */
  lemma SeverityWeightProperties(level: string, score: real)
    ensures SeverityWeight(level, score) == SeverityWeight(level, Clamp(score, 0.0, 1.0))
    ensures SeverityWeight(level, score) == SeverityWeight(Upper(level), score)
    ensures (Upper(level) !in {"LOW", "MEDIUM", "HIGH", "CRITICAL"})
              ==> SeverityWeight(level, score) == 0.7 * Clamp(score, 0.0, 1.0)
  {
    UpperIdempotent(level);
  }

  /** `_round_zone`: each coordinate is snapped to the nearest multiple of `step`
      (ties to even) and rounded to 6 decimals. Python raises on a zero step. */
  function RoundZone(lat: real, lng: real, step: real): (zone: (real, real))
    requires step != 0.0
  {
    (SnapCoord(lat, step), SnapCoord(lng, step))
  }

  /** One coordinate of `_round_zone`: the nearest multiple of the step. */
  function SnapCoord(x: real, step: real): real
    requires step != 0.0
  {
    Multiple(RoundHalfEven(x / step), step)
  }

  /** `round(n * step, 6)` */
  function Multiple(n: int, step: real): real
  {
    RoundTo(n as real * step, 6)
  }

  lemma SnapError(x: real, step: real)
    requires step != 0.0
    ensures Abs(RoundHalfEven(x / step) as real * step - x) <= Abs(step) / 2.0
  {
    var q := x / step;
    var n := RoundHalfEven(q) as real;
    assert q * step == x;
    HalfTimes(n - q, step);
    assert n * step - x == (n - q) * step;
  }

  lemma HalfTimes(d: real, step: real)
    requires -0.5 <= d <= 0.5
    ensures Abs(d * step) <= Abs(step) / 2.0
  {
    var m := Abs(step);
    HalfTimesNonneg(d, m);
    AbsMul(d, step);
    AbsWithin(d * step, d * m, m / 2.0);
  }

  lemma HalfTimesNonneg(d: real, w: real)
    requires -0.5 <= d <= 0.5 && w >= 0.0
    ensures -(w / 2.0) <= d * w <= w / 2.0
  {
    MulMonotone(d, 0.5, w);
    MulMonotone(-0.5, d, w);
  }

  lemma AbsMul(d: real, step: real)
    ensures d * step == d * Abs(step) || d * step == -(d * Abs(step))
  {
    if step < 0.0 {
      assert d * -step == -(d * step);
    }
  }

  lemma AbsWithin(a: real, b: real, e: real)
    requires -e <= b <= e && (a == b || a == -b)
    ensures Abs(a) <= e
  {
  }

  /** One coordinate of `_round_zone` lies within half a step, plus the
      6-decimal rounding, of the input coordinate. */
  lemma SnapAndRoundNear(x: real, step: real)
    requires step != 0.0
    ensures Abs(SnapCoord(x, step) - x) <= Abs(step) / 2.0 + 0.0000005
  {
    assert SnapCoord(x, step) == RoundTo(RoundHalfEven(x / step) as real * step, 6);
    SnapError(x, step);
    RoundTo6Error(RoundHalfEven(x / step) as real * step);
    Triangle(RoundTo(RoundHalfEven(x / step) as real * step, 6), RoundHalfEven(x / step) as real * step, x,
             0.0000005, Abs(step) / 2.0);
  }

  lemma RoundTo6Error(y: real)
    ensures Abs(RoundTo(y, 6) - y) <= 0.0000005
  {
    RoundToError(y, 6);
    assert Scale(6) == 1000000.0;
  }

  lemma Triangle(a: real, b: real, c: real, e1: real, e2: real)
    requires Abs(a - b) <= e1 && Abs(b - c) <= e2
    ensures Abs(a - c) <= e2 + e1
  {
  }

  /** A zone centre lies within half a step (plus the 6-decimal rounding) of the
      point, on each axis. */
  lemma RoundZoneNearPoint(lat: real, lng: real, step: real)
    requires step != 0.0
    ensures Abs(RoundZone(lat, lng, step).0 - lat) <= Abs(step) / 2.0 + 0.0000005
    ensures Abs(RoundZone(lat, lng, step).1 - lng) <= Abs(step) / 2.0 + 0.0000005
  {
    SnapAndRoundNear(lat, step);
    SnapAndRoundNear(lng, step);
  }

  /** A number strictly within half a unit of an integer rounds to it. */
  lemma RoundHalfEvenNear(q: real, n: int)
    requires n as real - 0.5 < q < n as real + 0.5
    ensures RoundHalfEven(q) == n
  {
  }

  /** A real `d` whose product with a step wider than 1e-6 is at most 5e-7
      in size lies strictly within half a unit of 0. */
  lemma SmallFactor(d: real, w: real, e: real)
    requires w > 0.000001 && d * w == e && -0.0000005 <= e <= 0.0000005
    ensures -0.5 < d < 0.5
  {
    if d >= 0.5 {
      MulMonotone(0.5, d, w);
    }
    if d <= -0.5 {
      MulMonotone(d, -0.5, w);
    }
  }

  /** Snapping a snapped-and-rounded coordinate again finds the same multiple
      of the step, once the step is wider than twice the 6-decimal rounding. */
  lemma SnapRoundedAgain(n: int, step: real)
    requires Abs(step) > 0.000001
    ensures RoundHalfEven(Multiple(n, step) / step) == n
  {
    var x := n as real * step;
    var y := RoundTo(x, 6);
    RoundTo6Error(x);
    var q := y / step;
    var d := q - n as real;
    assert q * step == y;
    assert d * step == q * step - x;
    if step > 0.0 {
      SmallFactor(d, step, y - x);
    } else {
      assert d * -step == x - y;
      SmallFactor(d, -step, x - y);
    }
    RoundHalfEvenNear(q, n);
  }

  /** Zone quantization is idempotent: a zone centre is its own zone. The
      step must exceed 1e-6 so that the 6-decimal rounding cannot push a
      centre into the neighbouring cell; the default step is 0.01. */
  lemma RoundZoneIdempotent(lat: real, lng: real, step: real)
    requires Abs(step) > 0.000001
    ensures RoundZone(RoundZone(lat, lng, step).0, RoundZone(lat, lng, step).1, step) == RoundZone(lat, lng, step)
  {
    SnapRoundedAgain(RoundHalfEven(lat / step), step);
    SnapRoundedAgain(RoundHalfEven(lng / step), step);
  }
}
