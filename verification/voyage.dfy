/**
 The browser game's state machine. The player sails the fog-covered map one
 square at a time while exploring; a skull square or an ambush starts a
 battle, and while a battle lasts the map is locked and each player action is
 answered by the enemy. Every random draw of the game is a parameter here.
 */
module Voyage {
  import opened Options
  import opened Numbers
  import opened SeaMap
  import opened Ships

  datatype GameState = Exploration | Combat

  /** What a treasure square turns out to hold. */
  datatype RandomEvent = FoundTreasure | Ambush | Storm | Trader

  /** The whole game: mode, map, the player's square, both ships, and whether the
      storm's temporary evasion boost is on the player. */
  datatype World = World(
    state: GameState,
    tiles: Grid,
    position: Coord,
    player: Ship,
    enemy: Option<Ship>,
    storm: bool)

  /** Why an input was turned away; a turned-away input changes nothing. */
  datatype Refusal = InCombat | OutOfReach | AlreadyUsed | NotInCombat | GameOver

  datatype Outcome = Outcome(world: World, refusal: Option<Refusal>)

  /** The player's evasion while the storm boost is on. */
  function StormEvasion(base: int): int {
    Min(base + 10, 100)
  }

  /** What the game keeps true between inputs: a complete map, the player on it, an
      enemy whenever there is a battle, both ships within their bounds, and the
      player's evasion boosted exactly while the storm flag is set. */
  ghost predicate Consistent(w: World) {
    && WellFormed(w.tiles)
    && InBounds(w.position)
    && (w.state == Combat ==> w.enemy.Some?)
    && Ships.Valid(w.player)
    && (w.enemy.Some? ==> Ships.Valid(w.enemy.value))
    && w.player.evasion == (if w.storm then StormEvasion(w.player.baseEvasion) else w.player.baseEvasion)
  }

  /** Revealed and used flags are only ever set, and the hidden types never change. */
  ghost predicate MapGrows(w: World, w': World)
    requires WellFormed(w.tiles) && WellFormed(w'.tiles)
  {
    SameLayout(w.tiles, w'.tiles) && FlagsGrow(w.tiles, w'.tiles)
  }

  // ---------------------------------------------------------------------------
  // startCombat / endCombat

  /** A battle begins against a freshly drawn enemy. */
  function Encounter(w: World, foe: EnemyType): (r: World)
    requires Consistent(w)
    ensures Consistent(r) && r.state == Combat
    ensures r.enemy == Some(CreateRandomEnemy(foe))
    ensures r.enemy.value.health == r.enemy.value.maxHealth > 0
    ensures r.(state := w.state, enemy := w.enemy) == w
  {
    w.(enemy := Some(CreateRandomEnemy(foe)), state := Combat)
  }

  /** The battle is over: back to exploring, and the fog lifts around the player's square. */
  function EndCombat(w: World): (r: World)
    requires Consistent(w)
    ensures Consistent(r) && r.state == Exploration && MapGrows(w, r)
    ensures forall d :: InBounds(d) ==>
      && r.tiles[Index(d)].revealed == (w.tiles[Index(d)].revealed || Distance(w.position, d) == 1)
      && r.tiles[Index(d)].used == w.tiles[Index(d)].used
    ensures r.(state := w.state, tiles := w.tiles) == w
  {
    TileAtFindsSquare(w.tiles, w.position);
    var here := TileAt(w.tiles, w.position.x, w.position.y).value;
    w.(state := Exploration, tiles := RevealNeighbors(w.tiles, Coord(here.x, here.y)))
  }

  // ---------------------------------------------------------------------------
  // The storm buff and processEndOfTurn

  /** The storm raises the player's evasion by 10, capped at 100, unless the boost is
      already on. */
  function ApplyStorm(w: World): (r: World)
    ensures r.storm
    ensures w.storm ==> r == w
    ensures !w.storm ==> r.player.evasion == Min(w.player.evasion + 10, 100)
    ensures w.player.evasion <= r.player.evasion <= w.player.evasion + 10 || w.player.evasion > 100
    ensures r.player == w.player.(evasion := r.player.evasion)
    ensures r.(player := w.player, storm := w.storm) == w
    ensures Consistent(w) ==> Consistent(r)
  {
    if w.storm then w
    else w.(player := w.player.(evasion := Min(w.player.evasion + 10, 100)), storm := true)
  }

  /** A storm striking twice within one turn boosts evasion only once. */
  lemma ApplyStormOnce(w: World)
    ensures ApplyStorm(ApplyStorm(w)) == ApplyStorm(w)
  {
  }

  /** End of a battle turn: the storm boost wears off, evasion dropping by 10 but never
      below its base value. */
  function ProcessEndOfTurn(w: World): (r: World)
    ensures !r.storm
    ensures !w.storm ==> r == w
    ensures w.storm ==> r.player.evasion == Max(w.player.evasion - 10, w.player.baseEvasion)
    ensures r.player == w.player.(evasion := r.player.evasion)
    ensures r.(player := w.player, storm := w.storm) == w
    ensures Consistent(w) ==> Consistent(r) && r.player.evasion == r.player.baseEvasion
  {
    if w.storm then
      w.(player := w.player.(evasion := Max(w.player.evasion - 10, w.player.baseEvasion)), storm := false)
    else w
  }

  /** A storm followed by the end of the turn leaves an unboosted player exactly as before. */
  lemma StormPasses(w: World)
    requires !w.storm && w.player.evasion == w.player.baseEvasion
    requires 0 <= w.player.baseEvasion <= 100
    ensures ProcessEndOfTurn(ApplyStorm(w)) == w
  {
  }

  // ---------------------------------------------------------------------------
  // handleRandomEvent

  /** The event found on a treasure square. */
  function HandleRandomEvent(w: World, event: RandomEvent, foe: EnemyType): (r: World)
    requires Consistent(w)
    ensures Consistent(r)
    ensures r.tiles == w.tiles && r.position == w.position
    ensures event == FoundTreasure || event == Trader ==>
      r == w.(player := r.player) && r.player == w.player.(health := r.player.health)
      && r.player.health == Min(w.player.health + 10, w.player.maxHealth)
    ensures event == Ambush ==>
      && r.state == Combat && r.enemy == Some(CreateRandomEnemy(foe))
      && r.player == w.player && r.storm == w.storm
    ensures event == Storm ==> r == ApplyStorm(w)
    ensures event != Ambush ==> r.state == w.state && r.enemy == w.enemy
  {
    match event
    case FoundTreasure => w.(player := Repair(w.player).ship)
    case Ambush => Encounter(w, foe)
    case Storm => ApplyStorm(w)
    case Trader => w.(player := Repair(w.player).ship)
  }

  // ---------------------------------------------------------------------------
  // handleTileClick

  /** What a newly entered square does: a skull starts a battle; any other square lifts
      the fog around it, a treasure square after its random event. */
  function Arrive(w: World, c: Coord, kind: TileKind, event: RandomEvent, foe: EnemyType): (r: World)
    requires Consistent(w) && InBounds(c)
    ensures Consistent(r) && MapGrows(w, r)
    ensures r.position == w.position
    ensures forall d :: InBounds(d) ==> r.tiles[Index(d)].used == w.tiles[Index(d)].used
    ensures forall d :: InBounds(d) ==> (r.tiles[Index(d)].revealed ==
      (w.tiles[Index(d)].revealed || (kind != Skull && Distance(c, d) == 1)))
    ensures kind == Skull ==> r.state == Combat && r.enemy == Some(CreateRandomEnemy(foe))
    ensures kind == Treasure ==> r == HandleRandomEvent(w, event, foe).(tiles := r.tiles)
    ensures kind != Treasure ==> r.player == w.player && r.storm == w.storm
    ensures (kind == OpenSea || kind == Island) ==> r.state == w.state && r.enemy == w.enemy
  {
    match kind
    case Skull => Encounter(w, foe)
    case Treasure =>
      var afterEvent := HandleRandomEvent(w, event, foe);
      afterEvent.(tiles := RevealNeighbors(afterEvent.tiles, c))
    case Island => w.(tiles := RevealNeighbors(w.tiles, c))
    case OpenSea => w.(tiles := RevealNeighbors(w.tiles, c))
  }

  /** The player sails to the square at `c` and spends it, and the square takes effect. */
  function Visit(w: World, c: Coord, event: RandomEvent, foe: EnemyType): (r: World)
    requires Consistent(w) && InBounds(c)
    ensures Consistent(r) && MapGrows(w, r)
    ensures r.position == c
    ensures forall d :: InBounds(d) ==> r.tiles[Index(d)].used == (w.tiles[Index(d)].used || d == c)
    ensures forall d :: InBounds(d) ==> (r.tiles[Index(d)].revealed ==
      (w.tiles[Index(d)].revealed || (w.tiles[Index(c)].kind != Skull && Distance(c, d) == 1)))
    ensures w.tiles[Index(c)].kind == Skull ==>
      r.state == Combat && r.enemy == Some(CreateRandomEnemy(foe))
    ensures w.tiles[Index(c)].kind == Treasure ==>
      var e := HandleRandomEvent(w, event, foe);
      r.state == e.state && r.player == e.player && r.enemy == e.enemy && r.storm == e.storm
    ensures w.tiles[Index(c)].kind != Treasure ==> r.player == w.player && r.storm == w.storm
    ensures w.tiles[Index(c)].kind == OpenSea || w.tiles[Index(c)].kind == Island ==>
      r.state == w.state && r.enemy == w.enemy
  {
    var moved := w.(tiles := MarkUsed(w.tiles, c), position := c);
    var r := Arrive(moved, c, w.tiles[Index(c)].kind, event, foe);
    MapGrowsTransitive(w, moved, r);
    r
  }

  lemma MapGrowsTransitive(a: World, b: World, c: World)
    requires WellFormed(a.tiles) && WellFormed(b.tiles) && WellFormed(c.tiles)
    requires MapGrows(a, b) && MapGrows(b, c)
    ensures MapGrows(a, c)
  {
  }

  /** The player clicks the square at `c`. Refused during a battle, when the square is
      neither revealed nor next to a revealed square, and when it has been visited;
      otherwise the player visits it. */
  function HandleTileClick(w: World, c: Coord, event: RandomEvent, foe: EnemyType): (r: Outcome)
    requires Consistent(w) && InBounds(c)
    ensures Consistent(r.world) && MapGrows(w, r.world)
    ensures r.refusal == Some(InCombat) <==> w.state == Combat
    ensures r.refusal == Some(OutOfReach) <==> w.state == Exploration && !NextToRevealed(w.tiles, c)
    ensures r.refusal == Some(AlreadyUsed) <==>
      w.state == Exploration && NextToRevealed(w.tiles, c) && w.tiles[Index(c)].used
    ensures r.refusal.None? <==>
      w.state == Exploration && NextToRevealed(w.tiles, c) && !w.tiles[Index(c)].used
    ensures r.refusal.Some? ==> r.world == w
    ensures r.refusal.None? ==> r.world == Visit(w, c, event, foe) && r.world.tiles[Index(c)].used
  {
    if w.state == Combat then Outcome(w, Some(InCombat))
    else if !NextToRevealed(w.tiles, c) then Outcome(w, Some(OutOfReach))
    else if w.tiles[Index(c)].used then Outcome(w, Some(AlreadyUsed))
    else Outcome(Visit(w, c, event, foe), None)
  }

  // ---------------------------------------------------------------------------
  // playerAction

  datatype Action = Attack | RepairShip | UnknownAction

  datatype EnemyChoice = EnemyAttacks | EnemyRepairs

  /** The random draws of one battle turn. `playerDamage` and `enemyDamage` are the shot
      sizes, `enemyRoll` and `playerRoll` the dodge rolls of the ship being shot at. */
  datatype Dice = Dice(
    playerDamage: int,
    enemyRoll: int,
    enemyChoice: EnemyChoice,
    enemyDamage: int,
    playerRoll: int)

  /** Draws the game can produce: a shot deals 1 to the shooter's attack power, and a
      dodge roll lies in [0, 100). */
  predicate DiceFit(d: Dice, player: Ship, enemy: Ship) {
    && 1 <= d.playerDamage <= player.attackPower
    && 0 <= d.enemyRoll < 100
    && 1 <= d.enemyDamage <= enemy.attackPower
    && 0 <= d.playerRoll < 100
  }

  /** The two ships of a battle. */
  datatype Duelists = Duelists(player: Ship, enemy: Ship)

  /** The player's half of a battle turn. */
  function PlayerStrike(s: Duelists, action: Action, d: Dice): (r: Duelists)
    requires Ships.Valid(s.player) && Ships.Valid(s.enemy) && DiceFit(d, s.player, s.enemy)
    ensures Ships.Valid(r.player) && Ships.Valid(r.enemy)
    ensures r.player == s.player.(health := r.player.health)
    ensures r.enemy == s.enemy.(health := r.enemy.health)
    ensures action == Attack ==>
      && r.player == s.player
      && r.enemy.health ==
           (if d.enemyRoll < s.enemy.evasion then s.enemy.health
            else Max(0, s.enemy.health - d.playerDamage))
      && s.enemy.health - s.player.attackPower <= r.enemy.health <= s.enemy.health
      && (r.enemy.health < s.enemy.health <==> s.enemy.evasion <= d.enemyRoll && 0 < s.enemy.health)
    ensures action == RepairShip ==>
      r.enemy == s.enemy && r.player.health == Min(s.player.health + 10, s.player.maxHealth)
    ensures action == UnknownAction ==> r == s
  {
    match action
    case Attack => s.(enemy := TakeDamage(s.enemy, d.playerDamage, d.enemyRoll))
    case RepairShip => s.(player := Repair(s.player).ship)
    case UnknownAction => s
  }

  /** The enemy's half of a battle turn; a sunk enemy does nothing. */
  function EnemyReply(s: Duelists, d: Dice): (r: Duelists)
    requires Ships.Valid(s.player) && Ships.Valid(s.enemy) && DiceFit(d, s.player, s.enemy)
    ensures Ships.Valid(r.player) && Ships.Valid(r.enemy)
    ensures r.player == s.player.(health := r.player.health)
    ensures r.enemy == s.enemy.(health := r.enemy.health)
    ensures IsDestroyed(s.enemy) ==> r == s
    ensures !IsDestroyed(s.enemy) && d.enemyChoice == EnemyAttacks ==>
      && r.enemy == s.enemy
      && r.player.health ==
           (if d.playerRoll < s.player.evasion then s.player.health
            else Max(0, s.player.health - d.enemyDamage))
      && s.player.health - s.enemy.attackPower <= r.player.health <= s.player.health
      && (r.player.health < s.player.health <==> s.player.evasion <= d.playerRoll && 0 < s.player.health)
    ensures !IsDestroyed(s.enemy) && d.enemyChoice == EnemyRepairs ==>
      r.player == s.player && r.enemy.health == Min(s.enemy.health + 10, s.enemy.maxHealth)
  {
    if IsDestroyed(s.enemy) then s
    else
      match d.enemyChoice
      case EnemyAttacks => s.(player := TakeDamage(s.player, d.enemyDamage, d.playerRoll))
      case EnemyRepairs => s.(enemy := Repair(s.enemy).ship)
  }

  /** One battle turn. Refused outside a battle and once either ship is sunk. Otherwise
      the player acts, a surviving enemy answers, a sunk enemy ends the battle, and the
      storm boost wears off. */
  function PlayerAction(w: World, action: Action, d: Dice): (r: Outcome)
    requires Consistent(w)
    requires w.state == Combat ==> DiceFit(d, w.player, w.enemy.value)
    ensures Consistent(r.world) && MapGrows(w, r.world)
    ensures r.refusal == Some(NotInCombat) <==> w.state == Exploration
    ensures r.refusal == Some(GameOver) <==>
      w.state == Combat && (IsDestroyed(w.player) || IsDestroyed(w.enemy.value))
    ensures r.refusal.None? <==>
      w.state == Combat && !IsDestroyed(w.player) && !IsDestroyed(w.enemy.value)
    ensures r.refusal.Some? ==> r.world == w
    ensures r.refusal.None? ==>
      var s := EnemyReply(PlayerStrike(Duelists(w.player, w.enemy.value), action, d), d);
      && r.world.player == s.player.(evasion := s.player.baseEvasion)
      && r.world.enemy == Some(s.enemy)
    ensures r.refusal.None? ==>
      && r.world.enemy.Some?
      && (r.world.state == Exploration <==> IsDestroyed(r.world.enemy.value))
      && !r.world.storm && r.world.player.evasion == r.world.player.baseEvasion
      && r.world.position == w.position
      && r.world.player.maxHealth == w.player.maxHealth
      && (forall c :: InBounds(c) ==> r.world.tiles[Index(c)].used == w.tiles[Index(c)].used)
      && (forall c :: InBounds(c) ==> (r.world.tiles[Index(c)].revealed ==
            (w.tiles[Index(c)].revealed ||
             (IsDestroyed(r.world.enemy.value) && Distance(w.position, c) == 1))))
  {
    if w.state != Combat then Outcome(w, Some(NotInCombat))
    else if IsDestroyed(w.player) || IsDestroyed(w.enemy.value) then Outcome(w, Some(GameOver))
    else
      var afterPlayer := PlayerStrike(Duelists(w.player, w.enemy.value), action, d);
      var afterEnemy := EnemyReply(afterPlayer, d);
      var fought := w.(player := afterEnemy.player, enemy := Some(afterEnemy.enemy));
      var settled := if IsDestroyed(afterEnemy.enemy) then EndCombat(fought) else fought;
      Outcome(ProcessEndOfTurn(settled), None)
  }

  // ---------------------------------------------------------------------------
  // generateMap

  const Start: Coord := Coord(2, 2)

  /** The opening position: the map laid out row by row with the drawn square types,
      the fog lifted from the middle square and its neighbours, nothing visited, and a
      battle already under way on the starting square. */
  function GenerateMap(kinds: seq<TileKind>, foe: EnemyType): (w: World)
    requires |kinds| == MapSize * MapSize
    ensures Consistent(w) && w.state == Combat && !w.storm
    ensures w.position == Start
    ensures w.player == PlayerShip() && w.enemy == Some(CreateRandomEnemy(foe))
    ensures forall c :: InBounds(c) ==>
      && w.tiles[Index(c)].kind == kinds[Index(c)]
      && !w.tiles[Index(c)].used
      && (w.tiles[Index(c)].revealed <==> Distance(Start, c) <= 1)
  {
    var blank := BlankMap(kinds);
    TileAtFindsSquare(blank, Start);
    var startTile := TileAt(blank, Start.x, Start.y).value;
    var here := Coord(startTile.x, startTile.y);
    var tiles := RevealAround(blank, here);
    World(Combat, tiles, Start, PlayerShip(), Some(CreateRandomEnemy(foe)), false)
  }
}
