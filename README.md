# Galaxy Raiders: a Dafny model of the game engine core

Galaxy Raiders is a terminal space shooter. Its game engine runs a fixed loop.
Each tick it takes at most one player command from the controller, updates the
space field while the game is not paused, and hands the field to the visualizer.
An update runs these steps in order:

- a collision pass over every pair of space objects;
- the moves and the trims;
- an asteroid spawn when a random probability does not exceed the configured
  threshold;
- an update of the scoreboard and the top-three leaderboard.

This project models that engine, together with the exact vector and point
arithmetic and the explosion lifetime counter:

- `physics.dfy` (module `Physics`): `Vector2D` and `Point2D` as datatypes over the
  reals, with their exact operators. Distance is modelled as the squared distance.
- `explosion.dfy` (module `Explosions`): the `Explosion` class. Its `isTriggered`
  and `limit` fields are 32-bit `Int32` values with Kotlin's wrap-around.
- `pairs.dfy` (module `Pairs`): the `forEachPair` nested loops, as a method
  proved against the sequence of index pairs it visits.
- `scores.dfy` (module `Scores`): the list logic of the scoreboard and the
  leaderboard. This covers appending or patching the current record, the
  descending sort by score, and keeping the first three.
- `engine.dfy` (module `Engine`): the `GameEngine` class. Every method is proved
  to move the engine's state exactly as a pure step function says.
- `engine_lemmas.dfy` (module `EngineProperties`): what those step functions
  promise. This covers input handling, pausing, collision dispatch, the spawn
  rule, score updates, rendering once per tick, and `execute(n)`.

The space field and its objects are not part of this model, and neither are the
controller, generator, visualizer and clock ports. The engine's state holds them
as follows:

- **Field calls.** Every call the engine makes into the field is recorded, in
  order, in a call trace (`calls`). The field itself changes through an abstract
  `FieldOps` record. Three calls have a fixed shape: launching a missile appends
  one missile, generating an asteroid appends one asteroid, and a boost changes
  the ship's velocity. The other calls (`collideWith`, `generateExplosion`, the
  moves and the trims) have an effect the model leaves open. `collideWith` and
  `generateExplosion` name their objects by reference: a position in the
  field's combined object list, plus the object's state when the collision
  pass began.
- **Controller.** A queue of pending commands.
- **Random generator.** A function from the number of the engine's own draws
  so far to a probability. Only the draw of `generateAsteroids` is counted (see
  "Left out").
- **Visualizer.** The list of fields it has been given.
- **Clock.** A function from the number of reads so far to a date.

The scoreboard and the leaderboard are the lists the engine reads from and writes
to its two JSON files, kept in the state instead of on disk. `updateLeaderboard`
re-reads the scoreboard file that `updateScoreBoard` has just written, so the
leaderboard is a function of the updated scoreboard.

Three details of the code are easy to misread, and the model follows the code:

- **Spawn threshold.** The code compares `probability <= threshold`
  (GameEngine.kt:178), so a drawn 0 spawns an asteroid even with threshold 0.
  `SpawnThresholdBounds` states this.
- **Score record field.** `Score.kt` names the score field `finalScore`, while
  `GameEngine.kt` reads and writes `score`. The model has one record shape,
  `Score(date, score, asteroidsDestroyed)`.
- **Exploded-asteroid count.** The first score update of a game stores
  `explodedAsteroids`, and every later one stores `explodedAsteroids + 1`. Both
  are modelled as written (`ScoreBoardUpdate`, `UpdateLastScoreChangesOnlyLast`).

## Model

| member | source | states |
|---|---|---|
| Physics.PlusCommutative | app/src/main/kotlin/galaxyraiders/core/physics/Vector2D.kt:46-48 | vector addition adds componentwise and is commutative |
| Physics.PlusAssociative | app/src/main/kotlin/galaxyraiders/core/physics/Vector2D.kt:46-48 | vector addition is associative |
| Physics.ZeroIsPlusIdentity | app/src/main/kotlin/galaxyraiders/core/physics/Vector2D.kt:46-48 | the zero vector is a two-sided identity for addition |
| Physics.NegInvolution | app/src/main/kotlin/galaxyraiders/core/physics/Vector2D.kt:54-56 | unary minus is an involution and gives the additive inverse |
| Physics.MinusIsPlusNeg | app/src/main/kotlin/galaxyraiders/core/physics/Vector2D.kt:54-60 | `v - w` is `v + (-w)` and the negation of `w - v` |
| Physics.DotSymmetric | app/src/main/kotlin/galaxyraiders/core/physics/Vector2D.kt:42-44 | the dot product is symmetric |
| Physics.DotSelfNonNegative | app/src/main/kotlin/galaxyraiders/core/physics/Vector2D.kt:42-44 | a vector's dot product with itself is never negative |
| Physics.DotBilinear | app/src/main/kotlin/galaxyraiders/core/physics/Vector2D.kt:34-48 | the dot product distributes over addition and commutes with scaling |
| Physics.ScalarTimesCommutes | app/src/main/kotlin/galaxyraiders/core/physics/Vector2D.kt:71-73 | `s * v` (scalar on the left) equals `v * s` |
| Physics.DivUndoesTimes | app/src/main/kotlin/galaxyraiders/core/physics/Vector2D.kt:34-40 | dividing by a nonzero scalar undoes multiplying by it; division by zero has no result |
| Physics.VectorPointPlusCommutes | app/src/main/kotlin/galaxyraiders/core/physics/Vector2D.kt:50-52 | `vector + point` is the same point as `point + vector` |
| Physics.PointPlusCommutative | app/src/main/kotlin/galaxyraiders/core/physics/Point2D.kt:5-7 | point addition adds coordinatewise and is commutative |
| Physics.ToVectorRoundTrip | app/src/main/kotlin/galaxyraiders/core/physics/Point2D.kt:17-19 | `toVector` keeps both coordinates; adding it to the origin gives the point back; it is the impact vector from the origin |
| Physics.ImpactVectorAntisymmetric | app/src/main/kotlin/galaxyraiders/core/physics/Point2D.kt:21-23 | the impact vector from `p` to `q` is the negation of the one from `q` to `p` |
| Physics.ImpactVectorSelfIsZero | app/src/main/kotlin/galaxyraiders/core/physics/Point2D.kt:21-23 | the impact vector from a point to itself is zero |
| Physics.ImpactVectorOfTranslation | app/src/main/kotlin/galaxyraiders/core/physics/Point2D.kt:9-23 | translating a point by `v` and measuring the impact vector back gives `v` |
| Physics.DistanceSquaredIsImpactDot | app/src/main/kotlin/galaxyraiders/core/physics/Point2D.kt:37-39 | the squared distance equals the impact vector's dot product with itself |
| Physics.DistanceSquaredSymmetric | app/src/main/kotlin/galaxyraiders/core/physics/Point2D.kt:37-39 | the squared distance is symmetric |
| Physics.DistanceSquaredNonNegative | app/src/main/kotlin/galaxyraiders/core/physics/Point2D.kt:37-39 | the squared distance is never negative |
| Physics.DistanceSquaredToSelf | app/src/main/kotlin/galaxyraiders/core/physics/Point2D.kt:37-39 | the squared distance from a point to itself is 0 |
| Explosions.Succ | app/src/main/kotlin/galaxyraiders/core/game/Explosion.kt:16 | `+= 1` on a Kotlin `Int` gives the one 32-bit value congruent to `c + 1` modulo `2^32` |
| Explosions.Explosion.constructor | app/src/main/kotlin/galaxyraiders/core/game/Explosion.kt:6-13 | a new explosion has type "Explosion", symbol `*`, counter 0 and limit 50 |
| Explosions.Explosion.WithCounter | app/src/main/kotlin/galaxyraiders/core/game/Explosion.kt:6-13 | an explosion built with explicit counter and limit keeps them |
| Explosions.Explosion.DesapeareExplosion | app/src/main/kotlin/galaxyraiders/core/game/Explosion.kt:15-18 | increments the counter (with wrap-around) and returns whether it is still below the limit |
| Explosions.CounterAfterAdds | app/src/main/kotlin/galaxyraiders/core/game/Explosion.kt:15-18 | below the wrap, `k` calls add exactly `k` to the counter |
| Explosions.DefaultLifetime | app/src/main/kotlin/galaxyraiders/core/game/Explosion.kt:11-18 | with the defaults, calls 1 to 49 report alive and calls 50 to `2^31 - 1` report expired |
| Explosions.StaysExpired | app/src/main/kotlin/galaxyraiders/core/game/Explosion.kt:15-18 | once the counter has reached the limit, every later call reports expired until the counter wraps |
| Explosions.DefaultRevivesAfterWrap | app/src/main/kotlin/galaxyraiders/core/game/Explosion.kt:15-18 | after `2^31 - 1` calls the counter wraps to `-2^31` and the next call reports alive again |
| Pairs.ForEachPair | app/src/main/kotlin/galaxyraiders/core/game/GameEngine.kt:188-194 | the nested loops, outer index `i` and inner index `j` from `i + 1`, visit exactly the index pairs of `PairIndices`, one visit per index pair, and pass the elements at those indices |
| Pairs.PairIndicesExactlyOnce | app/src/main/kotlin/galaxyraiders/core/game/GameEngine.kt:188-194 | every visit has `0 <= i < j < n`; visits are in lexicographic order, row `i` holding `(i, i+1) .. (i, n-1)`, and never repeat; every such pair is visited; there are `n(n-1)/2` visits, so the visited element pairs number `n(n-1)/2` too |
| Pairs.PairsAt | app/src/main/kotlin/galaxyraiders/core/game/GameEngine.kt:191 | the `k`-th visit passes the elements at the `k`-th index pair, and they are distinct positions |
| Pairs.PairsComplete | app/src/main/kotlin/galaxyraiders/core/game/GameEngine.kt:188-194 | every pair of positions `i < j` is passed to the action |
| Pairs.VisitedPairsMembers | app/src/main/kotlin/galaxyraiders/core/game/GameEngine.kt:191 | both elements of every visited pair come from the list |
| Scores.Insert | app/src/main/kotlin/galaxyraiders/core/game/GameEngine.kt:109 | insertion adds exactly the one record to the list's contents |
| Scores.SortIsSortedPermutation | app/src/main/kotlin/galaxyraiders/core/game/GameEngine.kt:109 | `sortByDescending { it.score }` gives a non-increasing list with exactly the records it was given |
| Scores.InsertMembers | app/src/main/kotlin/galaxyraiders/core/game/GameEngine.kt:109 | every record after insertion is the inserted one or one that was already there |
| Scores.InsertKeepsSorted | app/src/main/kotlin/galaxyraiders/core/game/GameEngine.kt:109 | inserting into a non-increasing list keeps it non-increasing |
| Scores.LeaderboardIsTopThree | app/src/main/kotlin/galaxyraiders/core/game/GameEngine.kt:109-115 | the leaderboard is the first `min(3, n)` records of the sorted scoreboard; it is non-increasing and drawn from the scoreboard; no record left off scores more than any record on it |
| Scores.PrefixOfSorted | app/src/main/kotlin/galaxyraiders/core/game/GameEngine.kt:111-115 | a prefix of a non-increasing list is non-increasing and scores at least as much as the rest |
| Scores.LeftOffScoresNoMore | app/src/main/kotlin/galaxyraiders/core/game/GameEngine.kt:111-115 | a record of the sorted list that is not among the first `n` scores no more than any of them |
| Scores.AddCurrentScoreAppendsOne | app/src/main/kotlin/galaxyraiders/core/game/GameEngine.kt:125-128 | a new player's update appends exactly one record with the clock's date, the score and the exploded count |
| Scores.UpdateLastScoreChangesOnlyLast | app/src/main/kotlin/galaxyraiders/core/game/GameEngine.kt:129-135 | later updates keep every record but the last, and give the last one the current score and `explodedAsteroids + 1`, keeping its date |
| Engine.UpdateScoreBoardSpec | app/src/main/kotlin/galaxyraiders/core/game/GameEngine.kt:120-137 | after a score update the scoreboard is non-empty and `newPlayer` is false |
| Engine.UpdateSpaceObjectsSpec | app/src/main/kotlin/galaxyraiders/core/game/GameEngine.kt:92-100 | an update keeps the scoreboard non-empty once `newPlayer` is false |
| Engine.TickSpec | app/src/main/kotlin/galaxyraiders/core/game/GameEngine.kt:67-71 | a tick keeps the scoreboard non-empty once `newPlayer` is false |
| Engine.Run | app/src/main/kotlin/galaxyraiders/core/game/GameEngine.kt:61-65 | `n` ticks keep the scoreboard non-empty once `newPlayer` is false |
| Engine.PlayingUpdateSpec | app/src/main/kotlin/galaxyraiders/core/game/GameEngine.kt:94-99 | an update of a running game keeps the scoreboard non-empty once `newPlayer` is false |
| Engine.RunSnoc | app/src/main/kotlin/galaxyraiders/core/game/GameEngine.kt:61-65 | the last of `n + 1` ticks runs on the state the first `n` leave |
| Engine.PerformedAppend | app/src/main/kotlin/galaxyraiders/core/game/GameEngine.kt:92-100 | making calls `a` and then calls `b` is the same as making `a + b` |
| Engine.GameEngine.constructor | app/src/main/kotlin/galaxyraiders/core/game/GameEngine.kt:35-49 | a new engine is playing, waits for a new player, and has rendered, drawn and called nothing |
| Engine.GameEngine.Execute | app/src/main/kotlin/galaxyraiders/core/game/GameEngine.kt:61-65 | `execute(n)` runs exactly `max(n, 0)` ticks |
| Engine.GameEngine.Tick | app/src/main/kotlin/galaxyraiders/core/game/GameEngine.kt:67-71 | a tick is input, then update, then render |
| Engine.GameEngine.NextPlayerCommand | app/src/main/kotlin/galaxyraiders/core/game/GameEngine.kt:74 | the controller yields the first pending command and removes it, or yields nothing when none is pending |
| Engine.GameEngine.ProcessPlayerInput | app/src/main/kotlin/galaxyraiders/core/game/GameEngine.kt:73-90 | the state moves as `ProcessPlayerInputSpec` says |
| Engine.GameEngine.UpdateSpaceObjects | app/src/main/kotlin/galaxyraiders/core/game/GameEngine.kt:92-100 | the state moves as `UpdateSpaceObjectsSpec` says |
| Engine.GameEngine.UpdateLeaderboard | app/src/main/kotlin/galaxyraiders/core/game/GameEngine.kt:103-117 | the leaderboard becomes the top three of the sorted scoreboard |
| Engine.GameEngine.UpdateScoreBoard | app/src/main/kotlin/galaxyraiders/core/game/GameEngine.kt:120-137 | the state moves as `UpdateScoreBoardSpec` says |
| Engine.GameEngine.ReadClock | app/src/main/kotlin/galaxyraiders/core/game/GameEngine.kt:126 | `Date()` reads the next date from the clock |
| Engine.GameEngine.HandleCollisions | app/src/main/kotlin/galaxyraiders/core/game/GameEngine.kt:139-144 | the collision pass makes, pair by pair in visiting order, the calls of `missileCollidesWithAsteroid` on references to the field's objects |
| Engine.GameEngine.MissileCollidesWithAsteroid | app/src/main/kotlin/galaxyraiders/core/game/GameEngine.kt:146-161 | makes exactly the calls `CollisionCalls` lists for the pair of references |
| Engine.GameEngine.MoveSpaceObjects | app/src/main/kotlin/galaxyraiders/core/game/GameEngine.kt:163-167 | moves the ship, then the asteroids, then the missiles |
| Engine.GameEngine.TrimSpaceObjects | app/src/main/kotlin/galaxyraiders/core/game/GameEngine.kt:169-173 | trims the asteroids, then the missiles, then the explosions |
| Engine.GameEngine.GenerateProbability | app/src/main/kotlin/galaxyraiders/core/game/GameEngine.kt:176 | the generator yields its next probability |
| Engine.GameEngine.GenerateAsteroids | app/src/main/kotlin/galaxyraiders/core/game/GameEngine.kt:175-181 | the state moves as `GenerateAsteroidsSpec` says |
| Engine.GameEngine.RenderSpaceField | app/src/main/kotlin/galaxyraiders/core/game/GameEngine.kt:183-185 | the visualizer receives the current field once |
| EngineProperties.InputConsumesAtMostOne | app/src/main/kotlin/galaxyraiders/core/game/GameEngine.kt:73-90 | input takes at most one command; with none pending nothing changes; input never draws, renders or touches the score lists |
| EngineProperties.PauseFlipsPlaying | app/src/main/kotlin/galaxyraiders/core/game/GameEngine.kt:86-87 | `PAUSE_GAME` flips the pause flag and makes no field call; every other command leaves the flag alone |
| EngineProperties.TwoPausesRestore | app/src/main/kotlin/galaxyraiders/core/game/GameEngine.kt:86-87 | two pauses in a row restore the state, minus the two commands |
| EngineProperties.LaunchAppendsOneMissile | app/src/main/kotlin/galaxyraiders/core/game/GameEngine.kt:84-85 | `LAUNCH_MISSILE` appends exactly one missile and changes neither the ship, the asteroids nor the explosions |
| EngineProperties.MoveBoostsShip | app/src/main/kotlin/galaxyraiders/core/game/GameEngine.kt:76-83 | a move command boosts the ship in its own direction and changes nothing else in the field |
| EngineProperties.CollisionDispatch | app/src/main/kotlin/galaxyraiders/core/game/GameEngine.kt:146-161 | no impact means no call; an impact means `collideWith` first; a Missile/Asteroid pair in either order then gets one `generateExplosion` with the missile first; any other pair gets nothing more |
| EngineProperties.PassCallsSound | app/src/main/kotlin/galaxyraiders/core/game/GameEngine.kt:139-161 | every call of a collision pass is a `collideWith` on an impacting visited pair, or a `generateExplosion` of a missile and an asteroid that form an impacting visited pair |
| EngineProperties.VisitedReferences | app/src/main/kotlin/galaxyraiders/core/game/GameEngine.kt:139-144 | every pair the collision pass visits names two objects of the field, the first strictly before the second, each with its state at the start of the pass |
| EngineProperties.PassCallsDistinctObjects | app/src/main/kotlin/galaxyraiders/core/game/GameEngine.kt:139-161 | every `collideWith` and `generateExplosion` of a pass names two distinct objects of the field, so two objects equal in every quantity are still collided as two |
| EngineProperties.NoMissileNoExplosion | app/src/main/kotlin/galaxyraiders/core/game/GameEngine.kt:139-161 | a field without missiles gets no `generateExplosion` from the collision pass |
| EngineProperties.PausedUpdateChangesNothing | app/src/main/kotlin/galaxyraiders/core/game/GameEngine.kt:93 | while paused an update changes nothing |
| EngineProperties.UpdateOrder | app/src/main/kotlin/galaxyraiders/core/game/GameEngine.kt:92-100 | while playing, the calls are the collision pass, the moves, the trims, then at most one asteroid; one probability is drawn; the leaderboard is that of the updated scoreboard |
| EngineProperties.GenerateAsteroidsIff | app/src/main/kotlin/galaxyraiders/core/game/GameEngine.kt:175-181 | one probability is drawn; exactly one asteroid is added if and only if it is at most the threshold, and otherwise the field is unchanged |
| EngineProperties.SpawnThresholdBounds | app/src/main/kotlin/galaxyraiders/core/game/GameEngine.kt:178 | with threshold 0 only a drawn 0 spawns; with threshold at least 1 every probability in [0, 1) spawns |
| EngineProperties.ScoreBoardUpdate | app/src/main/kotlin/galaxyraiders/core/game/GameEngine.kt:120-137 | the first update appends one record and clears `newPlayer`; later ones keep the length and every record but the last, and keep its date |
| EngineProperties.TickRendersOnce | app/src/main/kotlin/galaxyraiders/core/game/GameEngine.kt:67-71 | a tick renders exactly once, after the update, paused or not; its first calls are those of the command it took |
| EngineProperties.TickQueueAndFrames | app/src/main/kotlin/galaxyraiders/core/game/GameEngine.kt:67-71 | a tick takes at most one command and renders exactly one frame |
| EngineProperties.UpdateExtendsCalls | app/src/main/kotlin/galaxyraiders/core/game/GameEngine.kt:92-100 | an update keeps the command queue and the frames, and only appends to the call trace |
| EngineProperties.RunRendersN | app/src/main/kotlin/galaxyraiders/core/game/GameEngine.kt:61-65 | `n` ticks render `n` times and take the first `min(n, pending)` commands |
| EngineProperties.PausedTick | app/src/main/kotlin/galaxyraiders/core/game/GameEngine.kt:67-100 | one paused tick without `PAUSE_GAME` takes one command and leaves the pause flag, asteroids, explosions, draws and score lists alone |
| EngineProperties.PausedRunFreezes | app/src/main/kotlin/galaxyraiders/core/game/GameEngine.kt:92-100 | a paused engine that gets no `PAUSE_GAME` among its next `n` commands stays paused over `n` ticks, with its asteroids, explosions, draws and score lists frozen |
| EngineProperties.FrozenInput | app/src/main/kotlin/galaxyraiders/core/game/GameEngine.kt:76-85 | a command other than `PAUSE_GAME` leaves the pause flag, the asteroids and the explosions alone |

## Left out

- `execute()` without an argument: it loops forever and sleeps between frames, measuring wall-clock time. `execute(n)` is modelled.
- `GameEngineConfig` and the configuration files: the asteroid probability and the coefficient of restitution are a `Config` parameter. The engine also reads `spaceFieldWidth` and `spaceFieldHeight` (GameEngine.kt:41-42), which only size the field, and `msPerFrame` (GameEngine.kt:56), which only paces the endless `execute()`. Both of those are left out.
- The random generator: the space field is built with the same generator (GameEngine.kt:40-44), so the field's own draws share its sequence. The model counts only the engine's draw at GameEngine.kt:176, and `newAsteroid` and `newMissile` do not depend on any draw.
- File and JSON I/O for `Scoreboard.json` and `Leaderboard.json`: the lists are kept in the engine's state instead. A failed read or write is not modelled. This engine is assumed to be the scoreboard file's only writer. So the last record it patches is always its own, and `scoreList.last()` (GameEngine.kt:130) never meets an empty list. Neither holds in Kotlin when another program appends to or empties the file.
- `Date()`: the clock is a parameter, and a date is an `int`.
- `SpaceField`, `SpaceObject`, `Ship`, `Missile` and `Asteroid` are not part of this model. Their behaviour (impact test, boosts, moves, trims, `collideWith`, `generateExplosion`) is an abstract parameter, and only the calls the engine makes into them are modelled exactly.
- Engine.SpaceObjects: the order ship, asteroids, missiles, explosions is assumed, because `SpaceField.spaceObjects` is not part of this model.
- Engine.GameEngine.HandleCollisions: Kotlin hands the field's objects themselves to `collideWith` and `generateExplosion`. The model hands each a reference: the object's position in the combined list, plus a copy of its state taken when the pass starts. Positions keep object identity. But `collideWith` changes velocities in place, and a later pair of the same pass sees the changed object. The model's impact test and its calls use the copies from the start of the pass, and how the field applies a call to the current object is left to the abstract `effect`.
- `Ship` and `SpaceObject` internals are left out, and so are the explosions' use of `desapeareExplosion` in the field's trim. Only the counter logic of `Explosion` is modelled. The engine's `SpaceObject` carries no lifetime counter, so the `Explosions.Explosion` class and the field's `explosions` list are not connected. `effect(f, TrimExplosions)` therefore cannot depend on an explosion's lifetime, and the model does not promise that the trim drops exactly the expired explosions.
- Floating-point numbers: `Double` is modelled as exact real arithmetic, so rounding, infinities and NaN are not captured.
- Physics.Vector2D.Div: dividing by zero gives no result (`None`), where Kotlin gives infinities or NaN.
- The `magnitude`, `radiant`, `degree`, `unit` and `normal` properties, `angle_radiant`, `scalarProject` and `vectorProject` of `Vector2D`, and the `impactDirection`, `contactVector` and `contactDirection` of `Point2D` are left out. They need square roots, arctangents or a division by a magnitude, which have no exact real counterpart here.
- Physics.Point2D.DistanceSquared: `distance` is modelled as its square, without the final square root.
- Physics.DistanceSquaredNonNegative: positivity for distinct points is not stated.
- Explosions.DefaultLifetime: the claim is stated only up to `2^31 - 1` calls, because the counter wraps after that (`DefaultRevivesAfterWrap` shows the wrap).
- Explosions.StaysExpired: stated only while the counter stays below `2^31 - 1`, for the same reason.
- Scores.UpdateLastScore: `explodedAsteroids + 1` is computed over unbounded integers, so a Kotlin `Int` overflow at `2^31 - 1` is not modelled.
- Scores.SortByScoreDescending: the sort is written to be stable, as Kotlin's is, but stability is not stated as a lemma.
- The `toString` methods and the JSON-ignore annotations are left out: they only format text.
