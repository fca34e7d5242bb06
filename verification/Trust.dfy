/** Trust scores over exact rationals, and the bands they fall into. */
module Trust {
  import opened Common

  datatype TrustBand = Revoked | Probation | Standard | Trusted | HighlyTrusted

  function Rank(band: TrustBand): int {
    match band case Revoked => 0 case Probation => 1 case Standard => 2 case Trusted => 3 case HighlyTrusted => 4
  }

  function MinScore(band: TrustBand): real {
    match band
    case Revoked => 0.0
    case Probation => 0.20
    case Standard => 0.40
    case Trusted => 0.60
    case HighlyTrusted => 0.80
  }

  /** Not reached by a score of the band, but for the top one. */
  function MaxScore(band: TrustBand): real {
    match band
    case Revoked => 0.20
    case Probation => 0.40
    case Standard => 0.60
    case Trusted => 0.80
    case HighlyTrusted => 1.0
  }

  /** `from_score`; a score outside 0 to 1 raises. */
  function FromScore(score: real): Option<TrustBand> {
    if score < 0.0 || score > 1.0 then None
    else if score < 0.20 then Some(Revoked)
    else if score < 0.40 then Some(Probation)
    else if score < 0.60 then Some(Standard)
    else if score < 0.80 then Some(Trusted)
    else Some(HighlyTrusted)
  }

  /** The bands divide the scores from 0 to 1 between them, each from its least score up to, and but
      for the top one short of, its greatest; a better score never has a worse band. */
  lemma {:induction false} BandsDivideTheScores(score: real, better: real, band: TrustBand, other: TrustBand)
    ensures FromScore(score) == Some(band) <==>
            MinScore(band) <= score && (score < MaxScore(band) || (band.HighlyTrusted? && score == 1.0))
    ensures FromScore(score).Some? && FromScore(better).Some? && score <= better ==>
              Rank(FromScore(score).value) <= Rank(FromScore(better).value)
    ensures Rank(band) < Rank(other) <==> MinScore(band) < MinScore(other)
    ensures FromScore(MinScore(band) + 0.01) == Some(band)
  {
  }

  // ----- scores ------------------------------------------------------------------------

  datatype RawInputs = RawInputs(
    identityVerified: bool,
    healthScore: int,
    quarantined: bool,
    actionsToday: int,
    tokenSpend: int,
    tokenBudget: int,
    violations: int)

  function Least(a: real, b: real): real { if a < b then a else b }

  function Greatest(a: real, b: real): real { if a < b then b else a }

  function IdentityVerification(i: RawInputs): real {
    if i.identityVerified then 0.30 else 0.0
  }

  function Clamped(health: int): real {
    Greatest(0.0, Least(1.0, health as real / 100.0))
  }

  function OperationalHealth(i: RawInputs): real {
    var health := Clamped(i.healthScore) * 0.35;
    var unlessQuarantined := if i.quarantined then health - 0.35 else health;
    var unlessBusy := if i.actionsToday > 1000 then unlessQuarantined - 0.15 else unlessQuarantined;
    Greatest(-0.35, Least(0.35, unlessBusy))
  }

  predicate IsOverBudget(i: RawInputs) {
    i.tokenBudget > 0 && i.tokenSpend as real / i.tokenBudget as real > 0.9
  }

  function GovernanceRecord(i: RawInputs): real {
    var record := if i.violations > 0 then 0.35 - Least(0.35, i.violations as real * 0.12) else 0.35;
    var unlessSpent := if IsOverBudget(i) then record - 0.10 else record;
    Greatest(-0.35, Least(0.35, unlessSpent))
  }

  function Factors(i: RawInputs): real {
    IdentityVerification(i) + OperationalHealth(i) + GovernanceRecord(i)
  }

  /** `_compute_score`. */
  function ComputeScore(i: RawInputs): real {
    Greatest(0.0, Least(1.0, Factors(i)))
  }

  /** Adding up can fall below 0 but never passes 1, so the upper clamp does nothing and every
      score has a band. */
  lemma {:induction false} ScoreIsTheSum(i: RawInputs)
    ensures Factors(i) <= 1.0 && ComputeScore(i) == Greatest(0.0, Factors(i))
    ensures FromScore(ComputeScore(i)).Some?
  {
  }

  // ----- the same in points ------------------------------------------------------------

  function Between(low: int, n: int, high: int): int {
    if n < low then low else if high < n then high else n
  }

  predicate IsOverspent(i: RawInputs) {
    i.tokenBudget > 0 && 10 * i.tokenSpend > 9 * i.tokenBudget
  }

  /** The factors in ten-thousandths and whole numbers: up to 3,000 for identity, 3,500 for health
      and 3,500 for the record.  Quarantine costs 3,500 of health and more than a thousand actions
      1,500; each violation costs 1,200 of the record, 3,500 at most, and spending more than nine
      tenths of the token budget 1,000. */
  function Points(i: RawInputs): int {
    var identity := if i.identityVerified then 3_000 else 0;
    var health := 35 * Between(0, i.healthScore, 100)
                  - (if i.quarantined then 3_500 else 0) - (if i.actionsToday > 1_000 then 1_500 else 0);
    var record := 3_500 - Between(0, 1_200 * i.violations, 3_500) - (if IsOverspent(i) then 1_000 else 0);
    identity + Between(-3_500, health, 3_500) + record
  }

  lemma {:induction false} ShareOfBudget(i: RawInputs)
    ensures IsOverBudget(i) <==> IsOverspent(i)
  {
    if i.tokenBudget > 0 {
      var b := i.tokenBudget as real;
      var share := i.tokenSpend as real / b;
      assert share * b == i.tokenSpend as real;
      TimesKeepsOrder(0.9, share, b);
      assert (10 * i.tokenSpend) as real == 10.0 * (share * b) && (9 * i.tokenBudget) as real == 10.0 * (0.9 * b);
    }
  }

  lemma {:induction false} TimesKeepsOrder(x: real, y: real, b: real)
    requires 0.0 < b
    ensures x < y <==> x * b < y * b
  {
    if x < y { assert 0.0 < (y - x) * b; } else { assert 0.0 <= (x - y) * b; }
  }

  lemma {:induction false} RecordPoints(i: RawInputs)
    ensures GovernanceRecord(i) * 10_000.0
         == (3_500 - Between(0, 1_200 * i.violations, 3_500) - (if IsOverspent(i) then 1_000 else 0)) as real
  {
    ShareOfBudget(i);
    assert i.violations as real * 0.12 * 10_000.0 == (1_200 * i.violations) as real;
  }

  /** The score is the number of points, if any, in ten-thousandths. */
  lemma {:induction false} ScoreInPoints(i: RawInputs)
    ensures ComputeScore(i) * 10_000.0 == Between(0, Points(i), 10_000) as real
  {
    RecordPoints(i);
    assert Factors(i) * 10_000.0 == Points(i) as real;
  }

  lemma {:induction false} MoreSpendIsNotUnder(spend: int, more: int, budget: int)
    requires 0 < budget && spend <= more
    ensures spend as real / budget as real <= more as real / budget as real
  {
    var b := budget as real;
    var x, y := spend as real / b, more as real / b;
    assert x * b == spend as real && y * b == more as real;
    assert x > y ==> x * b > y * b;
  }

  /** Worse in no respect: the same budget, no more violations, spend or actions, no less health,
      verified if the other is, and quarantined only if the other is. */
  predicate IsNoWorse(good: RawInputs, bad: RawInputs) {
    && (bad.identityVerified ==> good.identityVerified)
    && (good.quarantined ==> bad.quarantined)
    && bad.healthScore <= good.healthScore
    && good.actionsToday <= bad.actionsToday
    && good.tokenBudget == bad.tokenBudget && good.tokenSpend <= bad.tokenSpend
    && good.violations <= bad.violations
  }

  /** Violations, spend, actions, quarantine and lost health or verification never help: neither
      the score nor the band rises. */
  lemma {:induction false} ScoreIsMonotone(good: RawInputs, bad: RawInputs)
    requires IsNoWorse(good, bad)
    ensures ComputeScore(bad) <= ComputeScore(good)
    ensures Rank(FromScore(ComputeScore(bad)).value) <= Rank(FromScore(ComputeScore(good)).value)
  {
    RecordIsMonotone(good, bad);
    ScoreIsTheSum(good);
    ScoreIsTheSum(bad);
  }

  lemma {:induction false} RecordIsMonotone(good: RawInputs, bad: RawInputs)
    requires IsNoWorse(good, bad)
    ensures GovernanceRecord(bad) <= GovernanceRecord(good)
  {
    if 0 < good.tokenBudget { MoreSpendIsNotUnder(good.tokenSpend, bad.tokenSpend, good.tokenBudget); }
    assert good.violations as real * 0.12 <= bad.violations as real * 0.12;
  }

  /** Nobody scores into the top band unverified, in quarantine, or with two or more violations,
      and one violation is forgiven only within nine tenths of the token budget. */
  lemma {:induction false} TopBandNeeds(i: RawInputs)
    requires FromScore(ComputeScore(i)) == Some(HighlyTrusted)
    ensures i.identityVerified && !i.quarantined && i.violations <= 1 && (i.violations == 1 ==> !IsOverBudget(i))
  {
    ScoreIsTheSum(i);
    assert i.violations >= 2 ==> i.violations as real * 0.12 >= 0.24;
    assert i.violations == 1 ==> i.violations as real * 0.12 == 0.12;
  }
}
