/** The pure scoring rules of the match engine: the speed-bonus lookup, the
    score formula, the level formula and the boss completion bonus.

    Units: elapsed time in milliseconds (the source divides by 1000 and compares
    with whole seconds, which is exact for integer milliseconds); the streak
    multiplier in tenths (the source's 1.0 .. 3.0 in steps of 0.1). */
module Scoring {
  import opened Util
  import opened GameConstants

  /** Bonus of the first tier, in table order, whose time limit the elapsed time meets; 0 if none does. */
  function FirstTierBonus(tiers: seq<SpeedTier>, elapsedMs: int): int
    decreases |tiers|
  {
    if tiers == [] then 0
    else if elapsedMs <= tiers[0].seconds * 1000 then tiers[0].bonus
    else FirstTierBonus(tiers[1..], elapsedMs)
  }

  /** The bonus handleMatch awards for a solve that took elapsedMs milliseconds. */
  function SpeedBonus(elapsedMs: int): (bonus: int)
    ensures bonus >= 0
  {
    FirstTierBonus(SpeedTiers, elapsedMs)
  }

  predicate Qualifies(t: SpeedTier, elapsedMs: int) {
    elapsedMs <= t.seconds * 1000
  }

  predicate TiersSorted(tiers: seq<SpeedTier>) {
    forall i, j :: 0 <= i < j < |tiers| ==>
      tiers[i].seconds < tiers[j].seconds && tiers[i].bonus > tiers[j].bonus
  }

  /** For tiers ascending in time and descending in bonus, the first-match scan
      returns the largest bonus among the qualifying tiers, and 0 exactly when none qualifies. */
  lemma {:induction false} FirstTierIsLargestQualifying(tiers: seq<SpeedTier>, elapsedMs: int)
    requires TiersSorted(tiers)
    requires forall i :: 0 <= i < |tiers| ==> tiers[i].bonus > 0
    ensures var b := FirstTierBonus(tiers, elapsedMs);
      && (b == 0 <==> forall i :: 0 <= i < |tiers| ==> !Qualifies(tiers[i], elapsedMs))
      && (forall i :: 0 <= i < |tiers| && Qualifies(tiers[i], elapsedMs) ==> tiers[i].bonus <= b)
      && (b != 0 ==> exists i :: 0 <= i < |tiers| && Qualifies(tiers[i], elapsedMs) && tiers[i].bonus == b)
    decreases |tiers|
  {
    if tiers != [] {
      var rest := tiers[1..];
      assert TiersSorted(rest) by {
        forall i, j | 0 <= i < j < |rest|
          ensures rest[i].seconds < rest[j].seconds && rest[i].bonus > rest[j].bonus
        {
          assert rest[i] == tiers[i + 1] && rest[j] == tiers[j + 1];
        }
      }
      FirstTierIsLargestQualifying(rest, elapsedMs);
      if Qualifies(tiers[0], elapsedMs) {
        assert FirstTierBonus(tiers, elapsedMs) == tiers[0].bonus;
      } else {
        // tier 0 does not qualify, and the rest is exactly the table shifted by one
        forall i | 0 <= i < |tiers| && Qualifies(tiers[i], elapsedMs)
          ensures tiers[i].bonus <= FirstTierBonus(tiers, elapsedMs)
        {
          assert i > 0 && tiers[i] == rest[i - 1];
        }
        if FirstTierBonus(tiers, elapsedMs) != 0 {
          var k :| 0 <= k < |rest| && Qualifies(rest[k], elapsedMs) && rest[k].bonus == FirstTierBonus(rest, elapsedMs);
          assert tiers[k + 1] == rest[k];
        } else {
          forall i | 0 <= i < |tiers| ensures !Qualifies(tiers[i], elapsedMs) {
            if i > 0 { assert tiers[i] == rest[i - 1]; }
          }
        }
      }
    }
  }

  /** The game's lookup: lightning (<= 3 s) 500, super fast (<= 5 s) 300, fast (<= 8 s) 200,
      good (<= 12 s) 100, nothing beyond 12 s; always the largest bonus that qualifies. */
  lemma SpeedBonusTable(elapsedMs: int)
    ensures SpeedBonus(elapsedMs) == 0 <==> elapsedMs > 12000
    ensures forall i :: 0 <= i < |SpeedTiers| && Qualifies(SpeedTiers[i], elapsedMs) ==>
      SpeedTiers[i].bonus <= SpeedBonus(elapsedMs)
    ensures SpeedBonus(elapsedMs) != 0 ==>
      exists i :: 0 <= i < |SpeedTiers| && Qualifies(SpeedTiers[i], elapsedMs) && SpeedTiers[i].bonus == SpeedBonus(elapsedMs)
  {
    SpeedTiersOrdered();
    FirstTierIsLargestQualifying(SpeedTiers, elapsedMs);
    if elapsedMs <= 12000 {
      assert Qualifies(SpeedTiers[3], elapsedMs);
    }
  }

  /** The `for (const key of Object.keys(SPEED_THRESHOLDS))` scan with its early `break`. */
  method LookupSpeedBonus(elapsedMs: int) returns (speedBonus: int)
    ensures speedBonus == SpeedBonus(elapsedMs)
  {
    speedBonus := 0;
    var i := 0;
    while i < |SpeedTiers|
      invariant 0 <= i <= |SpeedTiers|
      invariant FirstTierBonus(SpeedTiers, elapsedMs) == FirstTierBonus(SpeedTiers[i..], elapsedMs)
      invariant speedBonus == 0
    {
      var threshold := SpeedTiers[i];
      if elapsedMs <= threshold.seconds * 1000 {
        speedBonus := threshold.bonus;
        return;
      }
      assert SpeedTiers[i..][1..] == SpeedTiers[i + 1..];
      i := i + 1;
    }
  }

  /** `calculateScore(100, speedBonus)`: 100 x streak multiplier x boss multiplier + speed bonus,
      with the multiplier given in tenths. */
  function CalculateScore(multiplierTenths: int, isBossMode: bool, speedBonus: int): (points: int)
    requires multiplierTenths >= 10 && speedBonus >= 0
    ensures points >= 100 + speedBonus
    ensures isBossMode ==> points >= 300 + speedBonus
  {
    10 * multiplierTenths * (if isBossMode then BossBonusMultiplier else 1) + speedBonus
  }

  /** Boss mode triples the base part of a correct answer's points and leaves the speed bonus alone. */
  lemma BossModeTriplesBase(multiplierTenths: int, speedBonus: int)
    requires multiplierTenths >= 10 && speedBonus >= 0
    ensures CalculateScore(multiplierTenths, true, speedBonus) - speedBonus
         == 3 * (CalculateScore(multiplierTenths, false, speedBonus) - speedBonus)
    ensures CalculateScore(multiplierTenths, false, speedBonus) == multiplierTenths * 10 + speedBonus
  {
  }

  /** The streak multiplier after a correct answer: +0.1 capped at 3.0, in tenths. */
  function NextMultiplier(multiplierTenths: int): (m: int)
    requires 10 <= multiplierTenths <= 30
    ensures 10 <= m <= 30
    ensures m == multiplierTenths + 1 || m == 30
    ensures multiplierTenths < m || multiplierTenths == 30 == m
  {
    Min(multiplierTenths + 1, 30)
  }

  /** `Math.floor(score / 1000) + 1`. */
  function LevelFor(score: int): (level: int)
    requires score >= 0
    ensures level >= 1
    ensures (level - 1) * 1000 <= score < level * 1000
  {
    score / 1000 + 1
  }

  lemma LevelForMonotone(a: int, b: int)
    requires 0 <= a <= b
    ensures LevelFor(a) <= LevelFor(b)
  {
  }

  /** `Math.floor(score * 0.2)`, the boss completion bonus, for an integer score. */
  function BossBonus(score: int): (bonus: int)
    requires score >= 0
    ensures 0 <= bonus && 5 * bonus <= score < 5 * bonus + 5
  {
    score / 5
  }
}
