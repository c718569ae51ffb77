# Naval fog-of-war game and console duel, modelled in Dafny

This project models the game logic of two small naval games.

- **The browser game** (`game.js`). The player explores a 5×5 sea map hidden by fog.
  A square can be entered only while no battle is running, only when it is revealed
  or next to a revealed square, and only once. Entering a square spends it and moves
  the player there. A skull square starts a battle against a randomly drawn enemy.
  Any other square lifts the fog from its neighbours. A treasure square first
  triggers a random event: treasure, ambush, storm or trader. A battle runs turn by
  turn through `playerAction`: the player attacks or repairs, a surviving enemy
  answers, a sunk enemy ends the battle, and the storm's temporary evasion boost
  wears off.
- **The console duel** (`main.py`). Two ships stand on a line. Each turn a ship first
  lets its cooldowns tick down. It may then attack, if the enemy is within range and
  the attack cooldown is clear. It may repair, if the repair cooldown is clear. Or it
  may move.

The model is functional. Ships, tiles and the game world are immutable records, and
every operation is a pure function. Every random draw becomes a parameter, constrained
to the values the game can draw:

- the dodge roll;
- the damage of a shot;
- the enemy type;
- the treasure event;
- the enemy's chosen action;
- the repair amount;
- the enemy's move direction.

The player's typed command in the duel is a parameter too.

Modules:

- `Options` (`options.dfy`): the optional-value type.
- `Numbers` (`numbers.dfy`): `Abs`, `Min` and `Max`, shared by the other modules.
- `SeaMap` (`seamap.dfy`): tiles, the row-by-row grid, `getTileAt`, `getNeighbors`,
  `revealTile`, `isNeighboringRevealedTile`, and the map layout that `generateMap`
  produces.
- `Ships` (`ships.dfy`): the browser game's `Ship` class, the enemy designs and
  `createRandomEnemy`.
- `Voyage` (`voyage.dfy`): the browser game's global state (`World`),
  `handleTileClick`, `handleRandomEvent`, the storm boost, `processEndOfTurn`,
  `startCombat`/`endCombat` and `playerAction`. The `Consistent` predicate is the
  invariant that every operation preserves:
  - the map is complete;
  - the player is on it;
  - an enemy exists whenever a battle runs;
  - every ship has 0 ≤ health ≤ maxHealth and base evasion ≤ evasion ≤ 100;
  - the player's evasion is boosted exactly while the storm flag is set.
- `Duel` (`duel.dfy`): `main.py`'s `Ship`, `PlayerShip.take_turn` and
  `EnemyShip.take_turn`.

Notes on reading the source:

- A miss is not a fixed probability. It is the target's evasion stat, read as a
  percentage.
- In the browser game, `Math.random() * 100 < evasion` is modelled by an integer roll
  in [0, 100). The roll is the integer part of the draw. This is exact because
  evasion is an integer.
- In the duel, `randint(1, 100) <= evasion` is a roll in [1, 100].
- In the duel, an attack sets the attack cooldown to 1. The cooldown then ticks back
  to 0 at the start of the ship's next turn, before it is checked. So on every
  reachable state an in-range attack fires, and the "attack is on cooldown" branch
  never runs, neither for the player (`Duel.AttackNeverCoolingDown`) nor for the
  enemy (`Duel.EnemyAttackNeverCoolingDown`).

## Model

| member | source | states |
|---|---|---|
| `SeaMap.TileAt` | game.js:206-208 | Finds the first tile of the list that has the requested coordinates: no earlier tile has them. Finds nothing only when no tile has them. |
| `SeaMap.TileAtFindsSquare` | game.js:206-208 | On a well-formed map, the search for on-map coordinates finds exactly the square stored for them. For off-map coordinates it finds nothing. |
| `SeaMap.NeighborsAlong` | game.js:218-224 | Walking the direction list gives at most one square per direction. The result holds exactly the on-map squares one step away. Distinct directions give distinct squares. |
| `SeaMap.Neighbors` | game.js:210-226 | At most 4 squares, no duplicates. A square is listed exactly when it is on the map at Manhattan distance 1. |
| `SeaMap.NeighborsSymmetric` | game.js:210-226 | a lists b as a neighbour exactly when b lists a. |
| `SeaMap.NeighborCount` | game.js:210-226 | A corner square has 2 neighbours, an edge square 3, an inner square 4. |
| `SeaMap.RevealTile` | game.js:228-234 | Afterwards the square is revealed and its used flag is unchanged. Every other square is untouched. No flag is cleared and no tile type changes. |
| `SeaMap.RevealTileIdempotent` | game.js:228-230 | Revealing an already revealed square changes nothing. |
| `SeaMap.RevealAll` | game.js:199 | Revealing a list of squares one by one: a square ends revealed exactly when it was already revealed or is in the list. Used flags and tile types are unchanged. |
| `SeaMap.RevealNeighbors` | game.js:270 | A square ends revealed exactly when it was revealed or lies one step from the given square. Used flags are unchanged. |
| `SeaMap.RevealAround` | game.js:196-199 | Revealing the start square and its neighbours: a square ends revealed exactly when it was revealed or is within distance 1. |
| `SeaMap.MarkUsed` | game.js:254 | Spending a square sets its used flag. No revealed flag changes. No other square's used flag changes. |
| `SeaMap.BlankMap` | game.js:173-194 | The generated list is a complete 5×5 map in row order with the drawn tile types. It is all fogged and unvisited. |
| `SeaMap.NextToRevealed` | game.js:277-280 | A square passes the reachability check exactly when some revealed square lies within one orthogonal step of it, itself included. |
| `Ships.NewShip` | game.js:41-54 | A new ship starts at full health, and its base evasion and base attack equal its current ones. |
| `Ships.PlayerShip` | game.js:144 | The player's ship starts within the ship bounds, at full health. |
| `Ships.TakeDamage` | game.js:69-75 | An evaded shot (roll below evasion) leaves the ship unchanged. Otherwise health becomes max(0, health − damage). Health never goes negative and never rises, and only health changes. The ship ends destroyed exactly when it was destroyed already, or the shot was not evaded and the damage was at least its health. |
| `Ships.IsDestroyed` | game.js:92-94 | Within the ship bounds, a ship is destroyed exactly when its health is 0. |
| `Ships.Repair` | game.js:96-105 | The amount restored is added to health, and health becomes min(health + 10, maxHealth). Given health ≤ maxHealth, the amount is in [0, 10] and health stays ≤ maxHealth. Only health changes. |
| `Ships.ResetStats` | game.js:107-111 | Evasion and attack power return to their base values. Nothing else changes. |
| `Ships.ResetStatsIdempotent` | game.js:107-111 | Resetting twice is resetting once. A ship without buffs is unchanged. |
| `Ships.CreateEnemy` | game.js:121-141 | Exactly one ability modifier applies: highEvasion gives evasion +10, heavyAttack gives attack +5, any other ability changes nothing. Evasion is capped at 100. The enemy starts at full health with base stats equal to current stats, and is valid for any sane design. |
| `Ships.CreateRandomEnemy` | game.js:115-141 | Every drawn enemy is within the ship bounds and starts at full, positive health. |
| `Ships.EnemyStats` | game.js:115-130 | After the modifiers: Schooner 50 hull, 10 attack, 40 evasion. Frigate 80, 15, 15. Man-of-War 120, 30, 5. |
| `Voyage.Encounter` | game.js:262-263 | A battle starts against the drawn enemy at full health. Nothing else changes. The invariant is kept. |
| `Voyage.EndCombat` | game.js:365-378 | Back to exploring. The fog lifts from exactly the squares one step from the player. No used flag changes and nothing else changes. |
| `Voyage.ApplyStorm` | game.js:310-317 | When the boost is off, evasion becomes min(evasion + 10, 100) and the flag is set. When it is on, nothing changes. Evasion rises by at most 10. Only evasion and the flag change. |
| `Voyage.ApplyStormOnce` | game.js:312-314 | A second storm while the boost is on adds nothing. |
| `Voyage.ProcessEndOfTurn` | game.js:509-518 | The flag ends cleared. When it was set, evasion becomes max(evasion − 10, base evasion). On a consistent game, evasion ends at its base value. |
| `Voyage.StormPasses` | game.js:509-515 | A storm followed by the end of the turn restores an unboosted player exactly. |
| `Voyage.HandleRandomEvent` | game.js:296-327 | Treasure and trader repair the player: health becomes min(health + 10, maxHealth), and nothing else changes. An ambush starts a battle against the drawn enemy and leaves the player and the storm flag alone. A storm applies the boost. The map and position are untouched, and the invariant is kept. |
| `Voyage.Arrive` | game.js:261-274 | A skull starts a battle with no reveal. Every other square reveals exactly its neighbours. A treasure square first runs its random event, and apart from the map the result is exactly that event's result. Squares other than treasure leave the player and the storm flag alone; sea and island squares also leave the enemy and the mode alone. Used flags are unchanged. |
| `Voyage.Visit` | game.js:254-274 | Entering a square puts the player on it and spends exactly that square. The fog lifts from exactly its neighbours unless it is a skull, which starts a battle against the drawn enemy instead. On a treasure square the ships, the mode and the storm flag end as the random event leaves them. Other squares leave the player and the storm flag alone, and sea and island squares leave the enemy and the mode alone. The invariant holds and no flag is cleared. |
| `Voyage.HandleTileClick` | game.js:236-275 | Refused during a battle, then when the square is not reachable, then when it is already used, each exactly under its condition. Accepted exactly when all three gates pass. A refusal changes nothing. An accepted click is a `Visit` of the square, which ends spent. The invariant holds and no flag is cleared. |
| `Voyage.PlayerStrike` | game.js:467-477 | An attack harms only the enemy. An enemy roll below its evasion leaves it whole; otherwise its health becomes max(0, health − the drawn damage), so it loses at most the player's attack power. A repair heals the player to min(health + 10, maxHealth). An unknown action changes nothing. |
| `Voyage.EnemyReply` | game.js:479-490 | A sunk enemy does nothing. An attack harms only the player. A player roll below its evasion leaves it whole; otherwise its health becomes max(0, health − the drawn damage), at most the enemy's attack power. A repair heals the enemy to min(health + 10, maxHealth). |
| `Voyage.PlayerAction` | game.js:456-506 | Refused outside a battle and once either ship is sunk, changing nothing. Accepted exactly when a battle runs and neither ship is sunk. Then the ships end as the player's action followed by the enemy's reply leaves them, with the player's evasion back at its base value. The battle ends exactly when the enemy is sunk, and the storm boost is gone. The position and used flags are untouched. Fog lifts exactly around the player when the enemy sank. The invariant holds. |
| `Voyage.GenerateMap` | game.js:170-204 | The opening game: consistent; in battle against the drawn enemy; the player at (2, 2) with a fresh ship; the drawn tile types in place; nothing used; revealed exactly within distance 1 of the start. |
| `Duel.NewShip` | main.py:4-13 | A new ship starts at full health, at position 0, with both cooldowns at 0. |
| `Duel.TakeDamage` | main.py:15-22 | A roll at most the evasion leaves the ship unchanged. Otherwise health becomes max(0, health − damage) and never goes negative. Only health changes, and the duel bounds are kept. |
| `Duel.IsDestroyed` | main.py:24-25 | Within the duel bounds, a ship is destroyed exactly when its health is 0. |
| `Duel.Repair` | main.py:27-33 | Given health ≤ max_health: health becomes min(health + amount, max_health), so it rises unless already full and stays ≤ max_health. The repair cooldown becomes 2 and nothing else changes. |
| `Duel.Move` | main.py:35-37 | Only the position changes, by distance × speed. |
| `Duel.MoveThereAndBack` | main.py:35-37 | Moving by −d after moving by d restores the ship. |
| `Duel.MovesAdd` | main.py:35-37 | Moving by a, then by b, is moving by a + b. |
| `Duel.WithinRange` | main.py:39-40 | In range exactly when the enemy's position lies in [position − range, position + range]. |
| `Duel.WithinRangeSymmetric` | main.py:39-40 | With equal ranges, each ship is in range of the other or neither is. |
| `Duel.ReduceCooldowns` | main.py:42-45 | Each positive cooldown drops by exactly 1 and every other value stays. A non-negative cooldown never goes negative. Nothing else changes. |
| `Duel.CooldownsExpire` | main.py:42-45 | After n turn starts, each non-negative cooldown c stands at max(0, c − n). |
| `Duel.Fire` | main.py:59-62 | A shot changes only the target's health and sets the shooter's attack cooldown to 1. A roll at most the target's evasion leaves its health alone; otherwise health becomes max(0, health − damage). The duel bounds are kept. |
| `Duel.PlayerAttack` | main.py:52-62 | With cooldowns already ticked: refused as out of range exactly when the enemy is out of range, and as cooling down exactly when it is in range with a positive attack cooldown. A refusal changes nothing. Otherwise the attack cooldown becomes 1 and only the enemy's health changes. A roll at most its evasion leaves it whole; otherwise its health becomes max(0, health − damage), a loss between 10 and attack_power. The duel bounds are kept. |
| `Duel.PlayerRepair` | main.py:64-68 | With cooldowns already ticked: refused exactly when the repair cooldown is not 0, changing nothing. Otherwise only the player's health and repair cooldown change: health becomes min(health + amount, max_health) and the repair cooldown 2. |
| `Duel.PlayerTurn` | main.py:48-75 | Cooldowns tick first. An attack is refused, with no damage, exactly when out of range, or when in range with the attack cooldown above 1 before the tick. A successful attack sets the attack cooldown to 1. Unless evaded, the enemy's health becomes max(0, health − damage), with the damage in [10, attack_power]. A repair is refused exactly when the repair cooldown was not 0 or 1 before the tick. Otherwise health becomes min(health + amount, max_health), the repair cooldown 2, and nothing else changes. A move shifts by distance × speed. An invalid command is refused after the tick. |
| `Duel.PlayerTurnKeepsBounds` | main.py:48-75 | A player turn between two ships within the duel bounds leaves both within them. |
| `Duel.AttackNeverCoolingDown` | main.py:50-58 | Within the duel bounds, an in-range attack is never refused. |
| `Duel.EnemyTurn` | main.py:78-95 | The player is harmed only by an attack in range with the attack cooldown clear after the tick. Unless evaded, the player's health then becomes max(0, health − damage), with the damage in [5, attack_power], and the attack cooldown becomes 1. A repair runs only with the repair cooldown clear after the tick, and changes only health and cooldowns. A move shifts by the drawn direction × speed. Otherwise only the cooldowns tick. |
| `Duel.EnemyMovesOneSpeed` | main.py:93-95 | Whichever of the two directions is drawn, an enemy move covers exactly one speed. |
| `Duel.EnemyTurnKeepsBounds` | main.py:78-95 | An enemy turn between two ships within the duel bounds leaves both within them. |
| `Duel.EnemyAttackNeverCoolingDown` | main.py:82-88 | Within the duel bounds, an in-range attack the enemy chooses always fires. |
| `Duel.PlayerFlagship` | main.py:98 | The player's ship starts within the duel bounds, with attack power at least 10. |
| `Duel.PirateShip` | main.py:99 | The enemy ship starts within the duel bounds, with attack power at least 5. |

## Left out

- Rendering and DOM work are not modelled, because they are presentation only: `draw`, `drawBackground`, `animateAttack`, `resizeCanvas`, `updateHealthBars`, tile element classes, the fight container and event listeners.
- Ship names, colours, emoji, canvas positions and the damage flash are not modelled: they only feed rendering. The name is kept as a plain string.
- Status and message text (`appendStatus`, `updateStatus`, `print`) is not modelled. A refused input is reported as a `Refusal` value instead.
- `setTimeout` callbacks are not modelled, because they only redraw.
- `Math.random`, `random.randint` and `random.choice` are replaced by parameters restricted to the values they can produce.
- `main.py`'s module-level game loop (main.py:101-109) is not modelled; one turn of each ship is. The `input()` calls inside `PlayerShip.take_turn` (main.py:49 and main.py:71) become the `Command` parameter and the distance of `MoveCommand`, and the `.lower()` case folding of the typed action (main.py:49) is absorbed into `Command`. A non-numeric move distance makes `int(input())` raise, and that case is not modelled.
- `Duel.PlayerTurn`: with `attack_power` below 10, `randint(10, attack_power)` raises. The model instead requires a drawn damage in [10, attack_power] whenever the attack would fire, so that crash is not covered.
- `Duel.EnemyTurn`: likewise, `randint(5, attack_power)` with `attack_power` below 5 raises, and the model requires a damage in [5, attack_power] whenever the attack would fire.
- `Voyage.PlayerAction`: the source would throw on a null enemy during a battle. The model rules that state out through the `Consistent` invariant instead of modelling the exception.
