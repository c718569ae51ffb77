/**
 The warships of the browser game: hull points, attack power, evasion (a
 percentage chance to dodge), the base values temporary buffs fall back to,
 and the three enemy designs an encounter draws from.
 */
module Ships {
  import opened Numbers

  datatype Ability = NoAbility | HighEvasion | Balanced | HeavyAttack

  datatype Ship = Ship(
    name: string,
    health: int,
    maxHealth: int,
    attackPower: int,
    evasion: int,
    ability: Ability,
    baseEvasion: int,
    baseAttackPower: int)

  /** A freshly built ship: full health, and its current stats are its base stats. */
  function NewShip(name: string, health: int, attackPower: int, evasion: int, ability: Ability): (s: Ship)
    ensures s.health == s.maxHealth == health
    ensures s.attackPower == s.baseAttackPower == attackPower
    ensures s.evasion == s.baseEvasion == evasion
  {
    Ship(name, health, health, attackPower, evasion, ability, evasion, attackPower)
  }

  /** The bounds every ship in play keeps. */
  ghost predicate Valid(s: Ship) {
    && 0 <= s.health <= s.maxHealth
    && 1 <= s.attackPower
    && 0 <= s.baseEvasion <= s.evasion <= 100
  }

  /** The player's ship: 100 hull, 20 attack, 20% evasion, no special ability. */
  function PlayerShip(): (s: Ship)
    ensures Valid(s) && s.health == s.maxHealth
  {
    NewShip("The Black Pearl", 100, 20, 20, NoAbility)
  }

  /** A ship with no hull points left is destroyed; within the ship bounds that means
      exactly zero. */
  function IsDestroyed(s: Ship): (b: bool)
    ensures Valid(s) ==> (b <==> s.health == 0)
  {
    s.health <= 0
  }

  /** An incoming shot of `damage`. `roll` is the integer part of the uniform draw in
      [0, 100) that the shot is dodged against: the ship evades when it is below its
      evasion. Otherwise the hull loses `damage` points, never going below zero. */
  function TakeDamage(s: Ship, damage: int, roll: int): (r: Ship)
    requires 0 <= roll < 100
    ensures r == s.(health := r.health)
    ensures roll < s.evasion ==> r == s
    ensures roll >= s.evasion ==> r.health == Max(0, s.health - damage)
    ensures 0 <= damage && 0 <= s.health ==> 0 <= r.health <= s.health
    ensures 0 <= damage ==>
      (IsDestroyed(r) <==> IsDestroyed(s) || (s.evasion <= roll && s.health <= damage))
  {
    if roll < s.evasion then s
    else
      var h := s.health - damage;
      s.(health := if h < 0 then 0 else h)
  }

  /** A repair and the hull points it restored. */
  datatype Repaired = Repaired(ship: Ship, amount: int)

  /** Patch up to 10 hull points, never beyond the ship's maximum. */
  function Repair(s: Ship): (r: Repaired)
    ensures r.ship == s.(health := r.ship.health)
    ensures r.ship.health == s.health + r.amount
    ensures r.ship.health == Min(s.health + 10, s.maxHealth)
    ensures s.health <= s.maxHealth ==> 0 <= r.amount <= 10 && r.ship.health <= s.maxHealth
    ensures Valid(s) ==> Valid(r.ship)
  {
    var amount := Min(10, s.maxHealth - s.health);
    Repaired(s.(health := s.health + amount), amount)
  }

  /** Drop temporary buffs: evasion and attack power go back to their base values. */
  function ResetStats(s: Ship): (r: Ship)
    ensures r.evasion == r.baseEvasion == s.baseEvasion
    ensures r.attackPower == r.baseAttackPower == s.baseAttackPower
    ensures r.(evasion := s.evasion, attackPower := s.attackPower) == s
  {
    s.(evasion := s.baseEvasion, attackPower := s.baseAttackPower)
  }

  /** Resetting is idempotent, and a ship without buffs is left as it is. */
  lemma ResetStatsIdempotent(s: Ship)
    ensures ResetStats(ResetStats(s)) == ResetStats(s)
    ensures s.evasion == s.baseEvasion && s.attackPower == s.baseAttackPower ==> ResetStats(s) == s
  {
  }

  // ---------------------------------------------------------------------------
  // Enemy designs and createRandomEnemy

  datatype EnemyTemplate = EnemyTemplate(
    name: string, health: int, attackPower: int, evasion: int, ability: Ability)

  /** The three designs an encounter draws from uniformly. */
  datatype EnemyType = Schooner | Frigate | ManOfWar

  function Template(t: EnemyType): EnemyTemplate {
    match t
    case Schooner => EnemyTemplate("Schooner", 50, 10, 30, HighEvasion)
    case Frigate => EnemyTemplate("Frigate", 80, 15, 15, Balanced)
    case ManOfWar => EnemyTemplate("Man-of-War", 120, 25, 5, HeavyAttack)
  }

  /** Build an enemy from a design: the design's special ability adds its bonus once,
      and evasion is capped at 100. */
  function CreateEnemy(t: EnemyTemplate): (s: Ship)
    ensures s.name == t.name && s.ability == t.ability
    ensures s.health == s.maxHealth == t.health
    ensures s.evasion == s.baseEvasion <= 100
    ensures s.attackPower == s.baseAttackPower
    ensures t.ability == HighEvasion ==>
      s.evasion == Min(t.evasion + 10, 100) && s.attackPower == t.attackPower
    ensures t.ability == HeavyAttack ==>
      s.evasion == Min(t.evasion, 100) && s.attackPower == t.attackPower + 5
    ensures t.ability != HighEvasion && t.ability != HeavyAttack ==>
      s.evasion == Min(t.evasion, 100) && s.attackPower == t.attackPower
    ensures 0 <= t.health && 1 <= t.attackPower && 0 <= t.evasion ==> Valid(s)
  {
    var evasion := if t.ability == HighEvasion then t.evasion + 10 else t.evasion;
    var attackPower := if t.ability == HeavyAttack then t.attackPower + 5 else t.attackPower;
    NewShip(t.name, t.health, attackPower, Min(evasion, 100), t.ability)
  }

  /** An enemy of the drawn design. */
  function CreateRandomEnemy(t: EnemyType): (s: Ship)
    ensures Valid(s) && s.health == s.maxHealth > 0
  {
    CreateEnemy(Template(t))
  }

  /** The stats each design fields once its ability is applied. */
  lemma EnemyStats()
    ensures var s := CreateRandomEnemy(Schooner);
      s.maxHealth == 50 && s.attackPower == 10 && s.evasion == 40
    ensures var s := CreateRandomEnemy(Frigate);
      s.maxHealth == 80 && s.attackPower == 15 && s.evasion == 15
    ensures var s := CreateRandomEnemy(ManOfWar);
      s.maxHealth == 120 && s.attackPower == 30 && s.evasion == 5
  {
  }
}
