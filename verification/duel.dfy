/**
 The console duel: two ships on a line, each with a position, a speed, a
 firing range and per-action cooldowns counted in turns. On its turn a ship
 first lets its cooldowns tick down, then attacks, repairs or moves. Every
 random draw and the player's typed command are parameters here.
 */
module Duel {
  import opened Options
  import opened Numbers

  /** Turns left before an action may be used again. */
  datatype Cooldowns = Cooldowns(attack: int, repair: int)

  datatype Ship = Ship(
    name: string,
    health: int,
    maxHealth: int,
    attackPower: int,
    speed: int,
    evasion: int,
    range: int,
    position: int,
    cooldown: Cooldowns)

  /** A ship at full health, at position 0, with nothing cooling down. */
  function NewShip(name: string, health: int, attackPower: int, speed: int, evasion: int, range: int): (s: Ship)
    ensures s.health == s.maxHealth == health
    ensures s.position == 0 && s.cooldown == Cooldowns(0, 0)
    ensures s.attackPower == attackPower && s.speed == speed && s.evasion == evasion && s.range == range
  {
    Ship(name, health, health, attackPower, speed, evasion, range, 0, Cooldowns(0, 0))
  }

  /** The bounds a ship keeps throughout a duel. Attacks set a cooldown of 1 and
      repairs one of 2, and nothing else raises them. */
  ghost predicate Valid(s: Ship) {
    && 0 <= s.health <= s.maxHealth
    && 0 <= s.cooldown.attack <= 1
    && 0 <= s.cooldown.repair <= 2
  }

  /** An incoming shot of `damage`. `roll` is the draw from 1 to 100 that the shot is
      dodged against: the ship evades when it is at most its evasion. Otherwise the hull
      loses `damage` points, never going below zero. */
  function TakeDamage(s: Ship, damage: int, roll: int): (r: Ship)
    requires 1 <= roll <= 100
    ensures r == s.(health := r.health)
    ensures roll <= s.evasion ==> r == s
    ensures roll > s.evasion ==> r.health == Max(0, s.health - damage)
    ensures 0 <= damage && 0 <= s.health ==> 0 <= r.health <= s.health
    ensures Valid(s) && 0 <= damage ==> Valid(r)
  {
    if roll <= s.evasion then s
    else
      var h := s.health - damage;
      s.(health := if h < 0 then 0 else h)
  }

  /** A ship with no hull points left is destroyed; within the duel bounds that means
      exactly zero. */
  function IsDestroyed(s: Ship): (b: bool)
    ensures Valid(s) ==> (b <==> s.health == 0)
  {
    s.health <= 0
  }

  /** Patch `amount` hull points (drawn from 5 to 15), capped at the maximum; repairing
      is then unavailable for two turns. */
  function Repair(s: Ship, amount: int): (r: Ship)
    requires 5 <= amount <= 15
    ensures r == s.(health := r.health, cooldown := r.cooldown)
    ensures r.cooldown == s.cooldown.(repair := 2)
    ensures s.health <= s.maxHealth ==>
      && r.health == Min(s.health + amount, s.maxHealth)
      && (s.health < r.health || r.health == s.maxHealth)
      && r.health <= s.maxHealth
    ensures 0 <= s.health <= s.maxHealth && 0 <= s.cooldown.attack <= 1 ==> Valid(r)
  {
    var h := s.health + amount;
    s.(health := if h > s.maxHealth then s.maxHealth else h, cooldown := s.cooldown.(repair := 2))
  }

  /** Sail `distance` units; each unit covers `speed` squares of the line. */
  function Move(s: Ship, distance: int): (r: Ship)
    ensures r == s.(position := r.position)
    ensures r.position - s.position == distance * s.speed
    ensures Valid(s) ==> Valid(r)
  {
    s.(position := s.position + distance * s.speed)
  }

  /** Moving back by the same distance returns the ship to where it was. */
  lemma MoveThereAndBack(s: Ship, distance: int)
    ensures Move(Move(s, distance), -distance) == s
  {
  }

  /** Two moves in a row cover the sum of their distances. */
  lemma MovesAdd(s: Ship, a: int, b: int)
    ensures Move(Move(s, a), b) == Move(s, a + b)
  {
    assert a * s.speed + b * s.speed == (a + b) * s.speed;
  }

  /** `enemy` is within this ship's firing range: it lies in the interval of width
      `range` either side of the ship. */
  function WithinRange(s: Ship, enemy: Ship): (b: bool)
    ensures b <==> s.position - s.range <= enemy.position <= s.position + s.range
  {
    Abs(s.position - enemy.position) <= s.range
  }

  /** Ships with equal ranges are in range of each other or of neither. */
  lemma WithinRangeSymmetric(s: Ship, enemy: Ship)
    requires s.range == enemy.range
    ensures WithinRange(s, enemy) <==> WithinRange(enemy, s)
  {
  }

  /** One tick of a cooldown counter: a positive count drops by one, anything else stays. */
  function Tick(c: int): (r: int)
    ensures c > 0 ==> r == c - 1
    ensures c <= 0 ==> r == c
    ensures c >= 0 ==> 0 <= r <= c
  {
    if c > 0 then c - 1 else c
  }

  /** The start of a ship's turn: every cooldown ticks once; nothing else changes. */
  function ReduceCooldowns(s: Ship): (r: Ship)
    ensures r == s.(cooldown := r.cooldown)
    ensures r.cooldown == Cooldowns(Tick(s.cooldown.attack), Tick(s.cooldown.repair))
    ensures Valid(s) ==> Valid(r)
  {
    s.(cooldown := Cooldowns(Tick(s.cooldown.attack), Tick(s.cooldown.repair)))
  }

  /** The ship after `n` turn starts with no action in between. */
  function ReduceTimes(s: Ship, n: nat): Ship
    decreases n
  {
    if n == 0 then s else ReduceTimes(ReduceCooldowns(s), n - 1)
  }

  /** A cooldown of `k` turns is over after `k` turn starts: after `n` of them each
      counter stands at `k - n`, or at zero once `n` reaches `k`. */
  lemma {:induction false} CooldownsExpire(s: Ship, n: nat)
    requires s.cooldown.attack >= 0 && s.cooldown.repair >= 0
    ensures ReduceTimes(s, n) ==
      s.(cooldown := Cooldowns(Max(0, s.cooldown.attack - n), Max(0, s.cooldown.repair - n)))
    decreases n
  {
    if n > 0 {
      CooldownsExpire(ReduceCooldowns(s), n - 1);
    }
  }

  // ---------------------------------------------------------------------------
  // PlayerShip.take_turn

  /** What the player types. */
  datatype Command = AttackCommand | RepairCommand | MoveCommand(distance: int) | InvalidCommand

  /** Why a turn achieved nothing beyond the cooldown tick. */
  datatype Refusal = OutOfRange | AttackCoolingDown | RepairCoolingDown | UnknownCommand

  datatype Exchange = Exchange(me: Ship, foe: Ship)

  datatype Turn = Turn(ships: Exchange, refusal: Option<Refusal>)

  /** The attack that a turn of `s` against `foe` may fire: in range, and the attack
      cooldown clear once it has ticked. */
  predicate AttackReady(s: Ship, foe: Ship) {
    WithinRange(s, foe) && Tick(s.cooldown.attack) <= 0
  }

  /** A shot from `me` at `foe`: the foe takes `damage` against its dodge `roll`, and the
      attacker's attack cools down for one turn. */
  function Fire(me: Ship, foe: Ship, damage: int, roll: int): (r: Exchange)
    requires 1 <= roll <= 100 && 0 <= damage
    ensures r.me == me.(cooldown := me.cooldown.(attack := 1))
    ensures r.foe == foe.(health := r.foe.health)
    ensures roll <= foe.evasion ==> r.foe.health == foe.health
    ensures roll > foe.evasion ==> r.foe.health == Max(0, foe.health - damage)
    ensures Valid(me) && Valid(foe) ==> Valid(r.me) && Valid(r.foe)
  {
    Exchange(me.(cooldown := me.cooldown.(attack := 1)), TakeDamage(foe, damage, roll))
  }

  /** The attack command, after the cooldowns of `me` have ticked. */
  function PlayerAttack(me: Ship, e: Ship, damage: int, roll: int): (r: Turn)
    requires 1 <= roll <= 100
    requires WithinRange(me, e) && me.cooldown.attack <= 0 ==> 10 <= damage <= me.attackPower
    ensures r.refusal == Some(OutOfRange) <==> !WithinRange(me, e)
    ensures r.refusal == Some(AttackCoolingDown) <==> WithinRange(me, e) && me.cooldown.attack > 0
    ensures r.refusal.Some? ==>
      r.ships == Exchange(me, e) && (r.refusal.value.OutOfRange? || r.refusal.value.AttackCoolingDown?)
    ensures r.refusal.None? ==>
      && r.ships.me == me.(cooldown := me.cooldown.(attack := 1))
      && r.ships.foe == e.(health := r.ships.foe.health)
      && (roll <= e.evasion ==> r.ships.foe.health == e.health)
      && (roll > e.evasion ==> r.ships.foe.health == Max(0, e.health - damage))
      && (roll > e.evasion && 0 <= e.health ==>
            Max(0, e.health - me.attackPower) <= r.ships.foe.health <= Max(0, e.health - 10))
    ensures Valid(me) && Valid(e) ==> Valid(r.ships.me) && Valid(r.ships.foe)
  {
    if !WithinRange(me, e) then Turn(Exchange(me, e), Some(OutOfRange))
    else if me.cooldown.attack > 0 then Turn(Exchange(me, e), Some(AttackCoolingDown))
    else Turn(Fire(me, e, damage, roll), None)
  }

  /** The repair command, after the cooldowns of `me` have ticked. */
  function PlayerRepair(me: Ship, e: Ship, amount: int): (r: Turn)
    requires 5 <= amount <= 15
    ensures r.refusal == Some(RepairCoolingDown) <==> me.cooldown.repair != 0
    ensures r.refusal.Some? ==> r.ships == Exchange(me, e) && r.refusal.value.RepairCoolingDown?
    ensures r.refusal.None? ==>
      && r.ships.foe == e
      && r.ships.me.cooldown == me.cooldown.(repair := 2)
      && (me.health <= me.maxHealth ==> r.ships.me.health == Min(me.health + amount, me.maxHealth))
      && r.ships.me == me.(health := r.ships.me.health, cooldown := r.ships.me.cooldown)
  {
    if me.cooldown.repair == 0 then Turn(Exchange(Repair(me, amount), e), None)
    else Turn(Exchange(me, e), Some(RepairCoolingDown))
  }

  /** The player's turn. Cooldowns tick first. An attack is refused when the enemy is
      out of range or the attack is still cooling down; otherwise it deals `damage`
      (drawn from 10 to the attack power) against the enemy's dodge `roll`, and the
      attack cools down for a turn. A repair runs only when its cooldown is clear.
      A move covers `distance` units. Anything else forfeits the turn. */
  function PlayerTurn(p: Ship, e: Ship, cmd: Command, damage: int, roll: int, amount: int): (r: Turn)
    requires 1 <= roll <= 100 && 5 <= amount <= 15
    requires cmd == AttackCommand && AttackReady(p, e) ==> 10 <= damage <= p.attackPower
    ensures r.ships.me.maxHealth == p.maxHealth && r.ships.me.range == p.range
    ensures r.refusal == Some(OutOfRange) <==> cmd == AttackCommand && !WithinRange(p, e)
    ensures r.refusal == Some(AttackCoolingDown) <==>
      cmd == AttackCommand && WithinRange(p, e) && p.cooldown.attack > 1
    ensures r.refusal == Some(RepairCoolingDown) <==>
      cmd == RepairCommand && !(0 <= p.cooldown.repair <= 1)
    ensures r.refusal == Some(UnknownCommand) <==> cmd == InvalidCommand
    ensures r.refusal.Some? ==> r.ships == Exchange(ReduceCooldowns(p), e)
    ensures r.refusal.None? && cmd == AttackCommand ==>
      && r.ships.me == ReduceCooldowns(p).(cooldown := r.ships.me.cooldown)
      && r.ships.me.cooldown == Cooldowns(1, Tick(p.cooldown.repair))
      && r.ships.foe == e.(health := r.ships.foe.health)
      && (roll <= e.evasion ==> r.ships.foe.health == e.health)
      && (roll > e.evasion ==> r.ships.foe.health == Max(0, e.health - damage))
      && (roll > e.evasion && 0 <= e.health ==>
            Max(0, e.health - p.attackPower) <= r.ships.foe.health <= Max(0, e.health - 10))
    ensures r.refusal.None? && cmd == RepairCommand ==>
      && r.ships.foe == e
      && r.ships.me == ReduceCooldowns(p).(health := r.ships.me.health, cooldown := r.ships.me.cooldown)
      && r.ships.me.cooldown == Cooldowns(Tick(p.cooldown.attack), 2)
      && (p.health <= p.maxHealth ==> r.ships.me.health == Min(p.health + amount, p.maxHealth))
    ensures cmd.MoveCommand? ==>
      && r.refusal.None? && r.ships.foe == e
      && r.ships.me == Move(ReduceCooldowns(p), cmd.distance)
  {
    var me := ReduceCooldowns(p);
    match cmd
    case AttackCommand => PlayerAttack(me, e, damage, roll)
    case RepairCommand => PlayerRepair(me, e, amount)
    case MoveCommand(distance) => Turn(Exchange(Move(me, distance), e), None)
    case InvalidCommand => Turn(Exchange(me, e), Some(UnknownCommand))
  }

  /** On every turn of a duel the attack cooldown has already ticked back to zero, so
      an in-range attack is never refused for cooling down. */
  lemma AttackNeverCoolingDown(p: Ship, e: Ship, damage: int, roll: int, amount: int)
    requires Valid(p) && 1 <= roll <= 100 && 5 <= amount <= 15
    requires AttackReady(p, e) ==> 10 <= damage <= p.attackPower
    ensures WithinRange(p, e) ==> PlayerTurn(p, e, AttackCommand, damage, roll, amount).refusal.None?
  {
  }

  /** The player's turn keeps both ships within the duel bounds. */
  lemma PlayerTurnKeepsBounds(p: Ship, e: Ship, cmd: Command, damage: int, roll: int, amount: int)
    requires Valid(p) && Valid(e)
    requires 1 <= roll <= 100 && 5 <= amount <= 15
    requires cmd == AttackCommand && AttackReady(p, e) ==> 10 <= damage <= p.attackPower
    ensures var r := PlayerTurn(p, e, cmd, damage, roll, amount);
      Valid(r.ships.me) && Valid(r.ships.foe)
  {
  }

  // ---------------------------------------------------------------------------
  // EnemyShip.take_turn

  datatype EnemyChoice = EnemyAttack | EnemyRepair | EnemyMove

  /** The enemy's turn. Cooldowns tick first, then the randomly chosen action: an
      attack fires only when in range with the attack cooldown clear, dealing `damage`
      (drawn from 5 to the attack power) against the player's dodge `roll`; a repair
      runs only when its cooldown is clear; a move is one unit in `direction`
      (-1 or 1). An action whose condition fails does nothing. */
  function EnemyTurn(e: Ship, p: Ship, choice: EnemyChoice, damage: int, roll: int, amount: int, direction: int): (r: Exchange)
    requires 1 <= roll <= 100 && 5 <= amount <= 15
    requires direction == -1 || direction == 1
    requires choice == EnemyAttack && AttackReady(e, p) ==> 5 <= damage <= e.attackPower
    ensures r.me.maxHealth == e.maxHealth && r.me.range == e.range
    ensures r.foe == p.(health := r.foe.health)
    ensures !(choice == EnemyAttack && AttackReady(e, p)) ==> r.foe == p
    ensures choice == EnemyAttack && AttackReady(e, p) ==>
      && r.me == ReduceCooldowns(e).(cooldown := r.me.cooldown)
      && r.me.cooldown == Cooldowns(1, Tick(e.cooldown.repair))
      && (roll <= p.evasion ==> r.foe.health == p.health)
      && (roll > p.evasion ==> r.foe.health == Max(0, p.health - damage))
      && (roll > p.evasion && 0 <= p.health ==>
            Max(0, p.health - e.attackPower) <= r.foe.health <= Max(0, p.health - 5))
    ensures choice == EnemyAttack && !AttackReady(e, p) ==> r.me == ReduceCooldowns(e)
    ensures choice == EnemyRepair ==>
      if 0 <= e.cooldown.repair <= 1 then
        && r.me == ReduceCooldowns(e).(health := r.me.health, cooldown := r.me.cooldown)
        && r.me.cooldown == Cooldowns(Tick(e.cooldown.attack), 2)
        && (e.health <= e.maxHealth ==> r.me.health == Min(e.health + amount, e.maxHealth))
      else r.me == ReduceCooldowns(e)
    ensures choice == EnemyMove ==>
      && r.me == ReduceCooldowns(e).(position := r.me.position)
      && r.me.position - e.position == direction * e.speed
  {
    var me := ReduceCooldowns(e);
    if choice == EnemyAttack && WithinRange(me, p) then
      if me.cooldown.attack > 0 then Exchange(me, p)
      else Fire(me, p, damage, roll)
    else if choice == EnemyRepair && me.cooldown.repair == 0 then
      Exchange(Repair(me, amount), p)
    else if choice == EnemyMove then
      Exchange(Move(me, direction), p)
    else
      Exchange(me, p)
  }

  /** Like the player's, the enemy's attack cooldown has always ticked back to zero by
      its next turn, so an in-range attack it chooses always fires. */
  lemma EnemyAttackNeverCoolingDown(e: Ship, p: Ship, damage: int, roll: int, amount: int, direction: int)
    requires Valid(e) && 1 <= roll <= 100 && 5 <= amount <= 15
    requires direction == -1 || direction == 1
    requires AttackReady(e, p) ==> 5 <= damage <= e.attackPower
    ensures WithinRange(e, p) ==>
      EnemyTurn(e, p, EnemyAttack, damage, roll, amount, direction) == Fire(ReduceCooldowns(e), p, damage, roll)
  {
  }

  /** Whichever way the enemy is drawn to move, it covers exactly one speed. */
  lemma EnemyMovesOneSpeed(e: Ship, p: Ship, damage: int, roll: int, amount: int, direction: int)
    requires 1 <= roll <= 100 && 5 <= amount <= 15
    requires direction == -1 || direction == 1
    ensures var r := EnemyTurn(e, p, EnemyMove, damage, roll, amount, direction);
      Abs(r.me.position - e.position) == Abs(e.speed)
  {
  }

  /** The enemy's turn keeps both ships within the duel bounds. */
  lemma EnemyTurnKeepsBounds(e: Ship, p: Ship, choice: EnemyChoice, damage: int, roll: int, amount: int, direction: int)
    requires Valid(e) && Valid(p)
    requires 1 <= roll <= 100 && 5 <= amount <= 15
    requires direction == -1 || direction == 1
    requires choice == EnemyAttack && AttackReady(e, p) ==> 5 <= damage <= e.attackPower
    ensures var r := EnemyTurn(e, p, choice, damage, roll, amount, direction);
      Valid(r.me) && Valid(r.foe)
  {
  }

  // ---------------------------------------------------------------------------
  // The two ships of the console game

  function PlayerFlagship(): (s: Ship)
    ensures Valid(s) && s.attackPower >= 10
  {
    NewShip("The Black Pearl", 100, 20, 2, 20, 3)
  }

  function PirateShip(): (s: Ship)
    ensures Valid(s) && s.attackPower >= 5
  {
    NewShip("Dread Pirate's Ship", 80, 15, 1, 10, 3)
  }
}
