/** The constant tables of the game: speed-bonus tiers, boss-mode parameters,
    difficulty presets and the list of operations a player can enable. */
module GameConstants {

  /** One speed tier: a solve within `seconds` earns `bonus` points. */
  datatype SpeedTier = SpeedTier(key: string, seconds: int, bonus: int)

  /** The tiers in declaration order; the first one that qualifies is used. */
  const SpeedTiers: seq<SpeedTier> := [
    SpeedTier("LIGHTNING", 3, 500),
    SpeedTier("SUPER_FAST", 5, 300),
    SpeedTier("FAST", 8, 200),
    SpeedTier("GOOD", 12, 100)
  ]

  const BossStreakRequired: int := 10
  /** Boss-mode countdown length in seconds. */
  const BossTimeLimit: int := 10
  const BossBonusMultiplier: int := 3
  const BossColors: seq<string> := ["from-red-500", "from-purple-600", "from-orange-500"]

  /** The boss countdown runs on a 100 ms interval; the model counts it in tenths of a second. */
  const BossTicks: int := BossTimeLimit * 10

  datatype Preset = Preset(name: string, min: int, max: int, problemCount: int)

  const DifficultyPresets: seq<Preset> := [
    Preset("Beginner", 1, 5, 3),
    Preset("Easy", 1, 10, 4),
    Preset("Medium", 5, 15, 5),
    Preset("Hard", 10, 20, 6),
    Preset("Expert", 15, 30, 8)
  ]

  datatype OperationOption = OperationOption(value: string, name: string)

  const Operations: seq<OperationOption> := [
    OperationOption("addition", "Addition"),
    OperationOption("subtraction", "Subtraction"),
    OperationOption("multiplication", "Multiplication"),
    OperationOption("division", "Division")
  ]

  /** Tiers are strictly ascending in time and strictly descending in bonus, and every bonus is positive. */
  lemma SpeedTiersOrdered()
    ensures forall i, j :: 0 <= i < j < |SpeedTiers| ==>
      SpeedTiers[i].seconds < SpeedTiers[j].seconds && SpeedTiers[i].bonus > SpeedTiers[j].bonus
    ensures forall i :: 0 <= i < |SpeedTiers| ==> SpeedTiers[i].bonus > 0
  {
  }

  /** Every preset has min < max and at least three problems; problem counts strictly increase. */
  lemma PresetsWellFormed()
    ensures forall i :: 0 <= i < |DifficultyPresets| ==>
      1 <= DifficultyPresets[i].min < DifficultyPresets[i].max && DifficultyPresets[i].problemCount >= 3
    ensures forall i, j :: 0 <= i < j < |DifficultyPresets| ==>
      DifficultyPresets[i].problemCount < DifficultyPresets[j].problemCount
  {
  }

  /** The four operation values are pairwise distinct. */
  lemma OperationsDistinct()
    ensures |Operations| == 4
    ensures forall i, j :: 0 <= i < j < |Operations| ==> Operations[i].value != Operations[j].value
  {
  }

  lemma BossConstants()
    ensures BossStreakRequired == 10 && BossTimeLimit == 10 && BossBonusMultiplier == 3
    ensures |BossColors| == 3 && BossTicks == 100
  {
  }

  /** `(i + 1) % BOSS_MODE.COLORS.length`: the palette index always stays in range and cycles with period 3. */
  function NextColorIndex(i: int): (j: int)
    ensures 0 <= j < |BossColors|
    ensures 0 <= i < |BossColors| - 1 ==> j == i + 1
    ensures i == |BossColors| - 1 ==> j == 0
  {
    (i + 1) % |BossColors|
  }
}
