/**
 * The confidential battle circuit (`execute_battle`). Decryption, revealing the
 * result and the random number generator belong to the confidential-computation
 * library; here the three random factors are parameters, each already reduced
 * modulo 100 as the circuit does before using them.
 *
 * Fixed-width arithmetic: the u16 product in `EffectiveStat` and the u8
 * increments in `ComboBonus` wrap around. This is a chosen reading of how the
 * circuit compiler treats overflow, which is not part of this model; it is not
 * the checked arithmetic the on-chain program is built with. The u32 score
 * accumulators provably never overflow (`BattleScores`).
 */
module Circuits {
  import opened Primitives

  /** A fighter's attributes. */
  datatype FighterStats = FighterStats(attack: U16, defense: U16, speed: U16, specialMove: U8)

  /**
   * The strategy a player chooses: stance 0 = aggressive, 1 = defensive,
   * 2 = balanced; `targetStat` is carried but the circuit never reads it.
   */
  datatype BattleStrategy = BattleStrategy(stance: U8, targetStat: U8, combo1: U8, combo2: U8, combo3: U8)

  /** One player's encrypted input; `stakeAmount` is not read by the circuit either. */
  datatype PlayerBattleData = PlayerBattleData(fighterStats: FighterStats, strategy: BattleStrategy, stakeAmount: U64)

  /** Which stat an effective value is computed for (`stat_type`). */
  const ATTACK: U8 := 0
  const DEFENSE: U8 := 1
  const SPEED: U8 := 2

  /** The stance multiplier, in percent. */
  function Multiplier(stance: U8, statType: U8): (m: nat)
    ensures m == 120 <==> (stance == 0 && statType == ATTACK) || (stance == 1 && statType == DEFENSE)
    ensures m == 110 <==> stance == 2
    ensures m == 100 <==> !(stance == 0 && statType == ATTACK) && !(stance == 1 && statType == DEFENSE) && stance != 2
  {
    if stance == 0 && statType == ATTACK then 120
    else if stance == 1 && statType == DEFENSE then 120
    else if stance == 2 then 110
    else 100
  }

  /** The percentage factor a stat is scaled by: the stance multiplier plus up to 19 from randomness. */
  function Factor(stance: U8, statType: U8, rng: U16): nat
  {
    Multiplier(stance, statType) + rng % 20
  }

  /** Multiplication of naturals is monotone in both factors. */
  lemma MulLe(a: nat, b: nat, c: nat, d: nat)
    requires a <= c && b <= d
    ensures a * b <= c * d
  {
  }

  /** No factor the circuit uses (at most 139 percent) overflows u16 for a base of at most 471. */
  lemma SmallBaseFits(base: nat, f: nat)
    requires f <= 139
    ensures base <= 471 ==> base * f < U16_MODULUS
  {
  }

  /** Scaling a base by a factor between `lo` and `hi` percent, rounded down, lands between the two scalings. */
  lemma ScaledBetween(base: nat, lo: nat, f: nat, hi: nat)
    requires lo <= f <= hi
    ensures base * lo / 100 <= base * f / 100 <= base * hi / 100
  {
    MulLe(base, lo, base, f);
    MulLe(base, f, base, hi);
  }

  /** What scaling a base by `f` percent, `f` within 19 of a multiplier of at least 100, gives in u16. */
  lemma ScaledFacts(base: nat, m: nat, f: nat)
    requires 100 <= m <= f <= m + 19 && f <= 139
    ensures (base * f % U16_MODULUS) / 100 <= 655
    ensures base * f < U16_MODULUS ==> base * f % U16_MODULUS == base * f
    ensures base * f < U16_MODULUS ==> base * m / 100 <= base * f / 100 <= base * (m + 19) / 100
    ensures base * f < U16_MODULUS ==> base <= base * f / 100
    ensures base <= 471 ==> base * f < U16_MODULUS
  {
    ScaledBetween(base, m, f, m + 19);
    ScaledBetween(base, 100, m, m);
    SmallBaseFits(base, f);
  }

  /**
   * `calculate_effective_stat`: the base stat scaled by the stance multiplier
   * plus `rng % 20` percent, rounded down. The u16 product wraps around; when
   * it does not (always the case for a base of at most 471), the result lies
   * between the base scaled by the multiplier alone and by the multiplier
   * plus 19, and so is never below the base.
   */
  function EffectiveStat(base: U16, stance: U8, statType: U8, rng: U16): (r: U16)
    ensures r <= 655
    ensures base * Factor(stance, statType, rng) < U16_MODULUS ==>
      r == base * Factor(stance, statType, rng) / 100
    ensures base * Factor(stance, statType, rng) < U16_MODULUS ==>
      base * Multiplier(stance, statType) / 100 <= r <= base * (Multiplier(stance, statType) + 19) / 100
    ensures base * Factor(stance, statType, rng) < U16_MODULUS ==> base <= r
    ensures base <= 471 ==> base * Factor(stance, statType, rng) < U16_MODULUS
  {
    ScaledFacts(base, Multiplier(stance, statType), Factor(stance, statType, rng));
    (base * Factor(stance, statType, rng) % U16_MODULUS) / 100
  }

  /** With the largest aggressive attack factor, an attack of 472 wraps around to an effective attack of 0. */
  lemma EffectiveStatWrapsAround()
    ensures 472 * Factor(0, ATTACK, 19) >= U16_MODULUS
    ensures EffectiveStat(472, 0, ATTACK, 19) == 0
  {
  }

  /** Double special: the first two combo slots are both the fighter's special move. */
  predicate DoubleSpecial(combo1: U8, combo2: U8, specialMove: U8)
  {
    combo1 == specialMove && combo2 == specialMove
  }

  /** Sequential combo: each slot is the previous one plus one, in u8 arithmetic. */
  predicate SequentialCombo(combo1: U8, combo2: U8, combo3: U8)
  {
    (combo1 + 1) % U8_MODULUS == combo2 && (combo2 + 1) % U8_MODULUS == combo3
  }

  /**
   * `calculate_combo_bonus`: +15 for a double special, +10 for a sequential
   * combo. The two patterns exclude each other, so the bonuses never stack.
   */
  function ComboBonus(combo1: U8, combo2: U8, combo3: U8, specialMove: U8): (bonus: nat)
    ensures bonus == 0 || bonus == 10 || bonus == 15
    ensures bonus == 15 <==> combo1 == combo2 == specialMove
    ensures bonus == 10 <==> SequentialCombo(combo1, combo2, combo3)
    ensures !(DoubleSpecial(combo1, combo2, specialMove) && SequentialCombo(combo1, combo2, combo3))
  {
    var double := if DoubleSpecial(combo1, combo2, specialMove) then 15 else 0;
    if SequentialCombo(combo1, combo2, combo3) then double + 10 else double
  }

  /** A player's three effective stats. */
  datatype Effective = Effective(attack: U16, defense: U16, speed: U16)

  /** The three effective stats; the same random factor serves a given stat for both players. */
  function EffectiveStats(p: PlayerBattleData, rng1: U16, rng2: U16, rng3: U16): Effective
  {
    var stance := p.strategy.stance;
    Effective(EffectiveStat(p.fighterStats.attack, stance, ATTACK, rng1),
              EffectiveStat(p.fighterStats.defense, stance, DEFENSE, rng2),
              EffectiveStat(p.fighterStats.speed, stance, SPEED, rng3))
  }

  /**
   * The first-strike bonus (player 1's, player 2's): exactly one player gets
   * 10, player 1 only when strictly faster, player 2 on a tie.
   */
  function FirstStrike(speed1: U16, speed2: U16): (bonus: (nat, nat))
    ensures bonus.0 + bonus.1 == 10 && (bonus.0 == 0 || bonus.1 == 0)
    ensures bonus.0 == 10 <==> speed1 > speed2
    ensures bonus.1 == 10 <==> speed1 <= speed2
  {
    if speed1 > speed2 then (10, 0) else (0, 10)
  }

  /** Damage dealt: how far the attack exceeds the opposing defense, never below zero. */
  function Damage(attack: U16, defense: U16): (d: nat)
    ensures d <= attack
    ensures d > 0 <==> attack > defense
    ensures d > 0 ==> defense + d == attack
  {
    if attack > defense then attack - defense else 0
  }

  /** One player's combo bonus. */
  function PlayerCombo(p: PlayerBattleData): nat
  {
    ComboBonus(p.strategy.combo1, p.strategy.combo2, p.strategy.combo3, p.fighterStats.specialMove)
  }

  /**
   * The two scores (`p1_score`, `p2_score`). Each is at most 10 + 655 + 15,
   * so the circuit's u32 accumulators never overflow.
   */
  function BattleScores(p1: PlayerBattleData, p2: PlayerBattleData, rng1: U16, rng2: U16, rng3: U16): (scores: (nat, nat))
    ensures scores.0 <= 680 && scores.1 <= 680
  {
    var e1 := EffectiveStats(p1, rng1, rng2, rng3);
    var e2 := EffectiveStats(p2, rng1, rng2, rng3);
    var strike := FirstStrike(e1.speed, e2.speed);
    (strike.0 + Damage(e1.attack, e2.defense) + PlayerCombo(p1),
     strike.1 + Damage(e2.attack, e1.defense) + PlayerCombo(p2))
  }

  /** The revealed byte: 1 if player 1 scored more, 2 if player 2 did, 0 on a draw. */
  function Winner(score1: nat, score2: nat): (result: U8)
    ensures result == 0 || result == 1 || result == 2
    ensures result == 1 <==> score1 > score2
    ensures result == 2 <==> score2 > score1
    ensures result == 0 <==> score1 == score2
  {
    if score1 > score2 then 1
    else if score2 > score1 then 2
    else 0
  }

  /** `execute_battle` with its three random factors as parameters. */
  function ExecuteBattle(p1: PlayerBattleData, p2: PlayerBattleData, rng1: U16, rng2: U16, rng3: U16): (result: U8)
    requires rng1 < 100 && rng2 < 100 && rng3 < 100
    ensures result == 0 || result == 1 || result == 2
    ensures var scores := BattleScores(p1, p2, rng1, rng2, rng3);
      (result == 1 <==> scores.0 > scores.1) &&
      (result == 2 <==> scores.1 > scores.0) &&
      (result == 0 <==> scores.0 == scores.1)
  {
    var scores := BattleScores(p1, p2, rng1, rng2, rng3);
    Winner(scores.0, scores.1)
  }

  /** Result 1 and 2 trade places when the players do. */
  function Swapped(result: U8): U8
  {
    if result == 1 then 2 else if result == 2 then 1 else result
  }

  /**
   * When the effective speeds differ, swapping the players swaps their scores,
   * so results 1 and 2 trade places and a draw stays a draw.
   */
  lemma SwapPlayers(p1: PlayerBattleData, p2: PlayerBattleData, rng1: U16, rng2: U16, rng3: U16)
    requires rng1 < 100 && rng2 < 100 && rng3 < 100
    requires EffectiveStats(p1, rng1, rng2, rng3).speed != EffectiveStats(p2, rng1, rng2, rng3).speed
    ensures BattleScores(p2, p1, rng1, rng2, rng3) ==
      (BattleScores(p1, p2, rng1, rng2, rng3).1, BattleScores(p1, p2, rng1, rng2, rng3).0)
    ensures ExecuteBattle(p2, p1, rng1, rng2, rng3) == Swapped(ExecuteBattle(p1, p2, rng1, rng2, rng3))
  {
  }

  /**
   * The tie-break is not symmetric: two identical fighters with identical
   * strategies tie on speed, and player 2 always wins by the first-strike bonus.
   */
  lemma MirrorMatchGoesToPlayer2(p: PlayerBattleData, rng1: U16, rng2: U16, rng3: U16)
    requires rng1 < 100 && rng2 < 100 && rng3 < 100
    ensures BattleScores(p, p, rng1, rng2, rng3).1 == BattleScores(p, p, rng1, rng2, rng3).0 + 10
    ensures ExecuteBattle(p, p, rng1, rng2, rng3) == 2
  {
  }

  /**
   * A fixed input always yields the same byte: a balanced fighter
   * (100/50/80) against an aggressive one (90/60/70), every random factor 10,
   * no combo pattern, gives effective stats 120/60/96 against 117/66/77 and
   * scores 10 + 54 = 64 against 57, so player 1 wins.
   */
  lemma FixedInputOutcome()
    ensures var p1 := PlayerBattleData(FighterStats(100, 50, 80, 1), BattleStrategy(2, 0, 0, 0, 0), 0);
      var p2 := PlayerBattleData(FighterStats(90, 60, 70, 1), BattleStrategy(0, 0, 0, 0, 0), 0);
      EffectiveStats(p1, 10, 10, 10) == Effective(120, 60, 96) &&
      EffectiveStats(p2, 10, 10, 10) == Effective(117, 66, 77) &&
      BattleScores(p1, p2, 10, 10, 10) == (64, 57) &&
      ExecuteBattle(p1, p2, 10, 10, 10) == 1
  {
  }
}
