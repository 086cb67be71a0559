/** What the game engine promises, stated over the step functions that its
    methods are proved to follow. */
module EngineProperties {
  import opened Pairs
  import opened Scores
  import opened Engine

  function Min(a: int, b: int): int { if a < b then a else b }

  // ---------------------------------------------------------------------------
  // Player input

  /** At most one command is taken from the controller; when there is none, the
      engine and its field are left exactly as they were.  Input never draws a
      probability, renders, or touches the score lists. */
  lemma InputConsumesAtMostOne(env: Env, s: EngineState)
    ensures var r := ProcessPlayerInputSpec(env, s);
      && r.commands == (if s.commands == [] then [] else s.commands[1..])
      && (s.commands == [] ==> r == s)
      && r.draws == s.draws && r.clockReads == s.clockReads && r.frames == s.frames
      && r.newPlayer == s.newPlayer && r.scoreboard == s.scoreboard && r.leaderboard == s.leaderboard
  {
  }

  /** `PAUSE_GAME` flips the flag and makes no call into the field; every other
      command leaves the flag alone. */
  lemma PauseFlipsPlaying(env: Env, s: EngineState)
    requires s.commands != []
    ensures var r := ProcessPlayerInputSpec(env, s);
      && (s.commands[0] == PauseGame ==> r.playing == !s.playing && r.field == s.field && r.calls == s.calls)
      && (s.commands[0] != PauseGame ==> r.playing == s.playing)
  {
    if s.commands[0] == PauseGame {
      assert ApplyAll(env.ops, s.field, []) == s.field;
      assert s.calls + [] == s.calls;
    }
  }

  /** Two pauses in a row restore the flag and change nothing else but the queue. */
  lemma TwoPausesRestore(env: Env, s: EngineState)
    requires |s.commands| >= 2 && s.commands[0] == PauseGame && s.commands[1] == PauseGame
    ensures ProcessPlayerInputSpec(env, ProcessPlayerInputSpec(env, s)) == s.(commands := s.commands[2..])
  {
    PauseFlipsPlaying(env, s);
    var s1 := ProcessPlayerInputSpec(env, s);
    assert s1.commands == s.commands[1..];
    PauseFlipsPlaying(env, s1);
  }

  /** `LAUNCH_MISSILE` appends exactly one missile and makes the one call
      `generateMissile`; the ship, asteroids and explosions are unchanged. */
  lemma LaunchAppendsOneMissile(env: Env, s: EngineState)
    requires s.commands != [] && s.commands[0] == LaunchMissile
    ensures var r := ProcessPlayerInputSpec(env, s);
      && r.field.missiles == s.field.missiles + [env.ops.newMissile(s.field)]
      && |r.field.missiles| == |s.field.missiles| + 1
      && r.field.ship == s.field.ship
      && r.field.asteroids == s.field.asteroids && r.field.explosions == s.field.explosions
      && r.calls == s.calls + [GenerateMissile]
      && r.playing == s.playing
  {
    PerformedOne(env, s.(commands := s.commands[1..]), GenerateMissile);
  }

  function DirectionOf(c: PlayerCommand): Direction
    requires c != LaunchMissile && c != PauseGame
  {
    match c
    case MoveShipUp => Up
    case MoveShipDown => Down
    case MoveShipLeft => Left
    case MoveShipRight => Right
  }

  /** A move command boosts the ship in its direction and changes nothing else in
      the field, nor the pause flag. */
  lemma MoveBoostsShip(env: Env, s: EngineState)
    requires s.commands != [] && s.commands[0] != LaunchMissile && s.commands[0] != PauseGame
    ensures var r := ProcessPlayerInputSpec(env, s); var d := DirectionOf(s.commands[0]);
      && r.field.ship.velocity == env.ops.boost(d, s.field.ship.velocity)
      && r.field == s.field.(ship := s.field.ship.(velocity := env.ops.boost(d, s.field.ship.velocity)))
      && r.calls == s.calls + [Boost(d)]
      && r.playing == s.playing
  {
    PerformedOne(env, s.(commands := s.commands[1..]), Boost(DirectionOf(s.commands[0])));
  }

  // ---------------------------------------------------------------------------
  // Collision dispatch

  /** `missileCollidesWithAsteroid`: a pair that does not impact causes no call; an
      impacting pair always gets `collideWith` first; one Missile and one Asteroid,
      in either order, then get exactly one `generateExplosion` with the missile as
      first argument; any other impacting pair gets only `collideWith`. */
  lemma CollisionDispatch(env: Env, first: ObjectRef, second: ObjectRef)
    ensures !env.ops.impacts(first.value, second.value) ==> CollisionCalls(env, first, second) == []
    ensures var collide := CollideWith(first, second, env.config.coefficientRestitution);
      var impact := env.ops.impacts(first.value, second.value);
      && (impact && first.value.kind == Missile && second.value.kind == Asteroid ==>
            CollisionCalls(env, first, second) == [collide, GenerateExplosion(first, second)])
      && (impact && first.value.kind == Asteroid && second.value.kind == Missile ==>
            CollisionCalls(env, first, second) == [collide, GenerateExplosion(second, first)])
      && (impact && !IsMissileAsteroidPair(first.value, second.value) ==>
            CollisionCalls(env, first, second) == [collide])
  {
  }

  predicate IsMissileAsteroidPair(a: SpaceObject, b: SpaceObject) {
    (a.kind == Missile && b.kind == Asteroid) || (a.kind == Asteroid && b.kind == Missile)
  }

  /** Every call a collision pass makes comes from an impacting visited pair:
      `collideWith` receives that pair as visited, and `generateExplosion` receives
      the missile and the asteroid of a Missile/Asteroid pair, roles in place. */
  lemma {:induction false} PassCallsSound(env: Env, pairs: seq<(ObjectRef, ObjectRef)>)
    ensures forall c :: c in PassCalls(env, pairs) ==>
      match c
      case CollideWith(a, b, e) =>
        (a, b) in pairs && env.ops.impacts(a.value, b.value) && e == env.config.coefficientRestitution
      case GenerateExplosion(m, a) =>
        m.value.kind == Missile && a.value.kind == Asteroid &&
        (((m, a) in pairs && env.ops.impacts(m.value, a.value)) || ((a, m) in pairs && env.ops.impacts(a.value, m.value)))
      case _ => false
  {
    if pairs != [] {
      var init, last := pairs[..|pairs| - 1], pairs[|pairs| - 1];
      PassCallsSound(env, init);
      assert pairs == init + [last];
      forall c | c in PassCalls(env, pairs)
        ensures match c
          case CollideWith(a, b, e) =>
            (a, b) in pairs && env.ops.impacts(a.value, b.value) && e == env.config.coefficientRestitution
          case GenerateExplosion(m, a) =>
            m.value.kind == Missile && a.value.kind == Asteroid &&
            (((m, a) in pairs && env.ops.impacts(m.value, a.value)) || ((a, m) in pairs && env.ops.impacts(a.value, m.value)))
          case _ => false
      {
        if c in PassCalls(env, init) {
          assert forall p :: p in init ==> p in pairs;
        } else {
          assert c in CollisionCalls(env, last.0, last.1);
        }
      }
    }
  }

  /** Every visited pair of references names two different objects of the list,
      the first before the second, each with the state it had when the pass began. */
  lemma VisitedReferences(objects: seq<SpaceObject>)
    ensures forall a, b :: (a, b) in VisitedPairs(References(objects)) ==>
      && a.position < b.position < |objects|
      && a.value == objects[a.position] && b.value == objects[b.position]
  {
    var refs := References(objects);
    forall a, b | (a, b) in VisitedPairs(refs)
      ensures a.position < b.position < |objects|
      ensures a.value == objects[a.position] && b.value == objects[b.position]
    {
      var k :| 0 <= k < |VisitedPairs(refs)| && VisitedPairs(refs)[k] == (a, b);
      PairsAt(refs, k);
    }
  }

  /** The calls of a collision pass always name two distinct objects of the field,
      so two objects that coincide in every physical quantity are still collided
      as two: `collideWith` gets them in list order, and `generateExplosion` gets
      a missile and an asteroid at different positions. */
  lemma PassCallsDistinctObjects(env: Env, f: Field)
    ensures var objects := SpaceObjects(f);
      forall c :: c in PassCalls(env, VisitedPairs(References(objects))) ==>
        match c
        case CollideWith(a, b, _) =>
          a.position < b.position < |objects| && a.value == objects[a.position] && b.value == objects[b.position]
        case GenerateExplosion(m, a) =>
          m.position != a.position && m.position < |objects| && a.position < |objects|
          && m.value == objects[m.position] && a.value == objects[a.position]
        case _ => false
  {
    var objects := SpaceObjects(f);
    PassCallsSound(env, VisitedPairs(References(objects)));
    VisitedReferences(objects);
  }

  /** A pass over an object list with no missile makes no `generateExplosion` call. */
  lemma NoMissileNoExplosion(env: Env, f: Field)
    requires forall o :: o in SpaceObjects(f) ==> o.kind != Missile
    ensures forall c :: c in PassCalls(env, VisitedPairs(References(SpaceObjects(f)))) ==> !c.GenerateExplosion?
  {
    var objects := SpaceObjects(f);
    PassCallsSound(env, VisitedPairs(References(objects)));
    VisitedReferences(objects);
  }

  // ---------------------------------------------------------------------------
  // Update

  /** While paused an update changes nothing at all. */
  lemma PausedUpdateChangesNothing(env: Env, s: EngineState)
    requires Consistent(s) && !s.playing
    ensures UpdateSpaceObjectsSpec(env, s) == s
  {
  }

  /** While playing, an update makes its calls in a fixed order: the collision pass
      over each visited pair of the field's objects, the three moves, the three
      trims, then at most one `generateAsteroid`; it draws one probability and
      brings both score lists up to date. */
  lemma UpdateOrder(env: Env, s: EngineState)
    requires Consistent(s) && s.playing
    ensures var r := UpdateSpaceObjectsSpec(env, s);
      var spawn := SpawnsAsteroid(env.generator(s.draws), env.config.asteroidProbability);
      && r.calls == s.calls + PassCalls(env, VisitedPairs(References(SpaceObjects(s.field)))) + MoveCalls + TrimCalls
                    + (if spawn then [GenerateAsteroid] else [])
      && r.draws == s.draws + 1
      && !r.newPlayer
      && r.leaderboard == Leaderboard(r.scoreboard)
      && r.playing && r.commands == s.commands && r.frames == s.frames
  {
  }

  /** `generateAsteroids` appends exactly one asteroid when the drawn probability
      is at most the threshold, and otherwise leaves the field alone; either way it
      draws exactly one probability. */
  lemma GenerateAsteroidsIff(env: Env, s: EngineState)
    ensures var r := GenerateAsteroidsSpec(env, s);
      var spawn := env.generator(s.draws) <= env.config.asteroidProbability;
      && r.draws == s.draws + 1
      && (|r.field.asteroids| == |s.field.asteroids| + 1 <==> spawn)
      && (spawn ==> r.field == s.field.(asteroids := s.field.asteroids + [env.ops.newAsteroid(s.field)])
                    && r.calls == s.calls + [GenerateAsteroid])
      && (!spawn ==> r.field == s.field && r.calls == s.calls)
  {
    PerformedOne(env, s.(draws := s.draws + 1), GenerateAsteroid);
    assert ApplyAll(env.ops, s.field, []) == s.field;
    assert s.calls + [] == s.calls;
  }

  /** The threshold comparison is inclusive: with threshold 0 only a drawn 0 spawns
      an asteroid, and with a threshold of at least 1 every probability in [0, 1)
      does. */
  lemma SpawnThresholdBounds(p: real, threshold: real)
    ensures threshold == 0.0 ==> (SpawnsAsteroid(p, threshold) <==> p <= 0.0)
    ensures threshold >= 1.0 && 0.0 <= p < 1.0 ==> SpawnsAsteroid(p, threshold)
    ensures SpawnsAsteroid(0.0, 0.0)
  {
  }

  /** The first score update of a game adds exactly one record and clears
      `newPlayer`; later ones keep the scoreboard's length and change only its last
      record. */
  lemma ScoreBoardUpdate(env: Env, s: EngineState)
    requires Consistent(s)
    ensures var r := UpdateScoreBoardSpec(env, s);
      && !r.newPlayer
      && (s.newPlayer ==>
            |r.scoreboard| == |s.scoreboard| + 1 && r.scoreboard[..|s.scoreboard|] == s.scoreboard
            && r.scoreboard[|s.scoreboard|] == Score(env.clock(s.clockReads), s.field.score, s.field.explodedAsteroids))
      && (!s.newPlayer ==>
            |r.scoreboard| == |s.scoreboard| && r.scoreboard[..|r.scoreboard| - 1] == s.scoreboard[..|s.scoreboard| - 1]
            && r.scoreboard[|r.scoreboard| - 1].date == s.scoreboard[|s.scoreboard| - 1].date)
  {
    if s.newPlayer {
      AddCurrentScoreAppendsOne(s.scoreboard, env.clock(s.clockReads), s.field.score, s.field.explodedAsteroids);
    } else {
      UpdateLastScoreChangesOnlyLast(s.scoreboard, s.field.score, s.field.explodedAsteroids);
    }
  }

  // ---------------------------------------------------------------------------
  // Tick and execute

  /** A tick renders exactly once, after the update, whether or not the engine is
      paused, and its first calls are those of the command it took. */
  lemma TickRendersOnce(env: Env, s: EngineState)
    requires Consistent(s)
    ensures var r := TickSpec(env, s);
      && |r.frames| == |s.frames| + 1
      && r.frames[..|s.frames|] == s.frames
      && r.frames[|s.frames|] == r.field
      && r.field == UpdateSpaceObjectsSpec(env, ProcessPlayerInputSpec(env, s)).field
      && r.commands == (if s.commands == [] then [] else s.commands[1..])
      && (s.commands != [] ==> r.calls[..|s.calls| + |CommandCalls(s.commands[0])|] == s.calls + CommandCalls(s.commands[0]))
  {
    var s1 := ProcessPlayerInputSpec(env, s);
    UpdateExtendsCalls(env, s1);
    if s.commands != [] {
      assert s1.calls == s.calls + CommandCalls(s.commands[0]);
    }
  }

  /** An update keeps the queue and the frames, and only appends to the call trace. */
  lemma UpdateExtendsCalls(env: Env, s: EngineState)
    requires Consistent(s)
    ensures var r := UpdateSpaceObjectsSpec(env, s);
      && r.commands == s.commands && r.frames == s.frames
      && |r.calls| >= |s.calls| && r.calls[..|s.calls|] == s.calls
  {
    if s.playing {
      UpdateOrder(env, s);
    }
  }

  /** `execute(n)` runs exactly `n` ticks: `n` renders, and the first `n` pending
      commands (or all of them, if fewer) are taken. */
  lemma {:induction false} RunRendersN(env: Env, s: EngineState, n: nat)
    requires Consistent(s)
    ensures |Run(env, s, n).frames| == |s.frames| + n
    ensures Run(env, s, n).commands == s.commands[Min(n, |s.commands|)..]
    decreases n
  {
    if n > 0 {
      var t := TickSpec(env, s);
      TickQueueAndFrames(env, s);
      RunRendersN(env, t, n - 1);
      DropAfterTail(s.commands, n);
      assert Run(env, s, n) == Run(env, t, n - 1);
    } else {
      assert Run(env, s, 0) == s;
    }
  }

  /** Taking one command and then `n - 1` more takes the first `n`. */
  lemma DropAfterTail(cs: seq<PlayerCommand>, n: nat)
    requires n > 0
    ensures var tail := if cs == [] then [] else cs[1..];
      tail[Min(n - 1, |tail|)..] == cs[Min(n, |cs|)..]
  {
    if cs != [] {
      assert cs[1..][Min(n - 1, |cs| - 1)..] == cs[1 + Min(n - 1, |cs| - 1)..];
    }
  }

  /** A tick takes at most one command and renders one frame. */
  lemma TickQueueAndFrames(env: Env, s: EngineState)
    requires Consistent(s)
    ensures |TickSpec(env, s).frames| == |s.frames| + 1
    ensures TickSpec(env, s).commands == (if s.commands == [] then [] else s.commands[1..])
  {
    UpdateExtendsCalls(env, ProcessPlayerInputSpec(env, s));
  }

  /** A paused engine that receives no `PAUSE_GAME` stays paused: over the next `n`
      ticks its asteroids, explosions, draws and score lists stay frozen. */
  lemma {:induction false} PausedRunFreezes(env: Env, s: EngineState, n: nat)
    requires Consistent(s) && !s.playing
    requires PauseGame !in s.commands[..Min(n, |s.commands|)]
    ensures Frozen(s, Run(env, s, n))
    decreases n
  {
    if n > 0 {
      var t := TickSpec(env, s);
      NoPauseAhead(s.commands, n);
      PausedTick(env, s);
      PausedRunFreezes(env, t, n - 1);
      FrozenTransitive(s, t, Run(env, t, n - 1));
    } else {
      assert Run(env, s, 0) == s;
    }
  }

  /** No `PAUSE_GAME` among the first `n` commands: the first is not one, and there
      is none among the `n - 1` after it. */
  lemma NoPauseAhead(cs: seq<PlayerCommand>, n: nat)
    requires n > 0 && PauseGame !in cs[..Min(n, |cs|)]
    ensures cs != [] ==> cs[0] != PauseGame
    ensures PauseGame !in (if cs == [] then [] else cs[1..])[..Min(n - 1, if cs == [] then 0 else |cs| - 1)]
  {
    if cs != [] {
      assert cs[0] == cs[..Min(n, |cs|)][0];
      assert cs[1..][..Min(n - 1, |cs| - 1)] == cs[..Min(n, |cs|)][1..];
    }
  }

  lemma FrozenTransitive(s: EngineState, t: EngineState, r: EngineState)
    requires Frozen(s, t) && Frozen(t, r)
    ensures Frozen(s, r)
  {
  }

  /** `r` is paused and has the asteroids, explosions, draws and score lists of `s`. */
  predicate Frozen(s: EngineState, r: EngineState) {
    && !r.playing
    && r.field.asteroids == s.field.asteroids && r.field.explosions == s.field.explosions
    && r.draws == s.draws && r.newPlayer == s.newPlayer
    && r.scoreboard == s.scoreboard && r.leaderboard == s.leaderboard
  }

  /** One paused tick without `PAUSE_GAME` takes at most one command and changes
      neither the flag, the asteroids, the explosions, the draws nor the score lists. */
  lemma PausedTick(env: Env, s: EngineState)
    requires Consistent(s) && !s.playing
    requires s.commands != [] ==> s.commands[0] != PauseGame
    ensures Frozen(s, TickSpec(env, s))
    ensures TickSpec(env, s).commands == (if s.commands == [] then [] else s.commands[1..])
  {
    var s1 := ProcessPlayerInputSpec(env, s);
    InputConsumesAtMostOne(env, s);
    if s.commands != [] {
      FrozenInput(env, s);
    }
    PausedUpdateChangesNothing(env, s1);
  }

  /** One command other than `PAUSE_GAME` leaves the asteroids and explosions alone. */
  lemma FrozenInput(env: Env, s: EngineState)
    requires s.commands != [] && s.commands[0] != PauseGame
    ensures var r := ProcessPlayerInputSpec(env, s);
      && r.playing == s.playing
      && r.field.asteroids == s.field.asteroids && r.field.explosions == s.field.explosions
  {
    if s.commands[0] == LaunchMissile {
      LaunchAppendsOneMissile(env, s);
    } else {
      MoveBoostsShip(env, s);
    }
  }
}
