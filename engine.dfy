/** The game engine's control layer: the tick loop, the command dispatcher, the
    pause flag, the collision dispatch, the asteroid spawn rule and the score
    lists.

    The space field, its ship and space objects are not part of this model.  Each
    call the engine makes into them is recorded, in order, in a call trace and
    changes the field through an abstract `FieldOps` record: the field operations
    whose shape is fixed here are launching a missile and generating an asteroid
    (each appends one object) and boosting the ship (it changes the ship's
    velocity); every other call (collisions, explosions, moves, trims) has an
    effect the model leaves open.  The ports become plain state: the controller is
    a queue of commands, the random generator a sequence of probabilities indexed
    by the number of the engine's own draws, the visualizer the list of fields it
    was given, and the clock a sequence of dates indexed by the number of reads. */
module Engine {
  import opened Physics
  import opened Pairs
  import opened Scores

  datatype Kind = Ship | Asteroid | Missile | Explosion

  /** A space object as the engine sees it: its type and its physical state. */
  datatype SpaceObject = SpaceObject(kind: Kind, center: Point2D, velocity: Vector2D, radius: real, mass: real)

  /** The abstract space field: the ship, the three object lists and the counters
      the scoreboard reads. */
  datatype Field = Field(
    ship: SpaceObject,
    asteroids: seq<SpaceObject>,
    missiles: seq<SpaceObject>,
    explosions: seq<SpaceObject>,
    score: real,
    explodedAsteroids: int)

  /** The field's combined object list, scanned for collisions. */
  function SpaceObjects(f: Field): seq<SpaceObject> {
    [f.ship] + f.asteroids + f.missiles + f.explosions
  }

  datatype Direction = Up | Down | Left | Right

  datatype PlayerCommand =
    | MoveShipUp | MoveShipDown | MoveShipLeft | MoveShipRight
    | LaunchMissile
    | PauseGame

  /** A reference to the object at `position` in the field's combined object list,
      together with the state that object had when the collision pass began.  Two
      objects that are equal as values are still told apart by their positions. */
  datatype ObjectRef = ObjectRef(position: nat, value: SpaceObject)

  /** References to every object of `objects`, in order. */
  function References(objects: seq<SpaceObject>): seq<ObjectRef> {
    seq(|objects|, k requires 0 <= k < |objects| => ObjectRef(k, objects[k]))
  }

  /** A call from the engine into the space field or one of its objects. */
  datatype FieldCall =
    | Boost(direction: Direction)
    | GenerateMissile
    | GenerateAsteroid
    | CollideWith(first: ObjectRef, second: ObjectRef, coefficientRestitution: real)
    | GenerateExplosion(missile: ObjectRef, asteroid: ObjectRef)
    | MoveShip | MoveAsteroids | MoveMissiles
    | TrimAsteroids | TrimMissiles | TrimExplosions

  /** The behaviour of the field and its objects that this model leaves abstract. */
  datatype FieldOps = FieldOps(
    impacts: (SpaceObject, SpaceObject) -> bool,
    boost: (Direction, Vector2D) -> Vector2D,
    newMissile: Field -> SpaceObject,
    newAsteroid: Field -> SpaceObject,
    effect: (Field, FieldCall) -> Field)

  /** The resolved configuration values the engine reads. */
  datatype Config = Config(asteroidProbability: real, coefficientRestitution: real)

  /** Everything outside the engine: field behaviour, generator, clock, configuration. */
  datatype Env = Env(ops: FieldOps, generator: nat -> real, clock: nat -> int, config: Config)

  /** The engine's whole observable state. */
  datatype EngineState = EngineState(
    playing: bool,
    newPlayer: bool,
    field: Field,
    commands: seq<PlayerCommand>,   // the controller's pending commands
    draws: nat,                     // probabilities drawn from the generator so far
    clockReads: nat,                // dates read from the clock so far
    frames: seq<Field>,             // the fields handed to the visualizer, in order
    calls: seq<FieldCall>,          // the calls made into the field, in order
    scoreboard: seq<Score>,
    leaderboard: seq<Score>)

  /** Once the first score update has run (`newPlayer` is false), the scoreboard
      is non-empty. */
  predicate Consistent(s: EngineState) {
    s.newPlayer || |s.scoreboard| > 0
  }

  // ---------------------------------------------------------------------------
  // Field calls

  function Apply(ops: FieldOps, f: Field, c: FieldCall): Field {
    match c
    case Boost(d) => f.(ship := f.ship.(velocity := ops.boost(d, f.ship.velocity)))
    case GenerateMissile => f.(missiles := f.missiles + [ops.newMissile(f)])
    case GenerateAsteroid => f.(asteroids := f.asteroids + [ops.newAsteroid(f)])
    case _ => ops.effect(f, c)
  }

  function ApplyAll(ops: FieldOps, f: Field, cs: seq<FieldCall>): Field {
    if cs == [] then f else Apply(ops, ApplyAll(ops, f, cs[..|cs| - 1]), cs[|cs| - 1])
  }

  /** The state after the calls `cs` have been made, in order. */
  function Performed(env: Env, s: EngineState, cs: seq<FieldCall>): EngineState {
    s.(calls := s.calls + cs, field := ApplyAll(env.ops, s.field, cs))
  }

  lemma {:induction false} ApplyAllAppend(ops: FieldOps, f: Field, a: seq<FieldCall>, b: seq<FieldCall>)
    ensures ApplyAll(ops, f, a + b) == ApplyAll(ops, ApplyAll(ops, f, a), b)
  {
    if b == [] {
      assert a + b == a;
    } else {
      ApplyAllAppend(ops, f, a, b[..|b| - 1]);
      assert (a + b)[..|a + b| - 1] == a + b[..|b| - 1];
    }
  }

  lemma PerformedAppend(env: Env, s: EngineState, a: seq<FieldCall>, b: seq<FieldCall>)
    ensures Performed(env, Performed(env, s, a), b) == Performed(env, s, a + b)
  {
    ApplyAllAppend(env.ops, s.field, a, b);
    assert s.calls + a + b == s.calls + (a + b);
  }

  lemma PerformedOne(env: Env, s: EngineState, c: FieldCall)
    ensures Performed(env, s, [c]).field == Apply(env.ops, s.field, c)
  {
    var cs := [c];
    assert cs[..|cs| - 1] == [];
    assert ApplyAll(env.ops, s.field, cs) == Apply(env.ops, ApplyAll(env.ops, s.field, []), c);
  }

  // ---------------------------------------------------------------------------
  // The steps of a tick, as functions of the state

  function CommandCalls(c: PlayerCommand): seq<FieldCall> {
    match c
    case MoveShipUp => [Boost(Up)]
    case MoveShipDown => [Boost(Down)]
    case MoveShipLeft => [Boost(Left)]
    case MoveShipRight => [Boost(Right)]
    case LaunchMissile => [GenerateMissile]
    case PauseGame => []
  }

  function ProcessPlayerInputSpec(env: Env, s: EngineState): EngineState {
    if s.commands == [] then s
    else
      var c := s.commands[0];
      var s1 := Performed(env, s.(commands := s.commands[1..]), CommandCalls(c));
      if c == PauseGame then s1.(playing := !s.playing) else s1
  }

  /** The calls `missileCollidesWithAsteroid(first, second)` makes. */
  function CollisionCalls(env: Env, first: ObjectRef, second: ObjectRef): seq<FieldCall> {
    if !env.ops.impacts(first.value, second.value) then []
    else
      [CollideWith(first, second, env.config.coefficientRestitution)]
      + (if first.value.kind == Missile && second.value.kind == Asteroid then [GenerateExplosion(first, second)] else [])
      + (if first.value.kind == Asteroid && second.value.kind == Missile then [GenerateExplosion(second, first)] else [])
  }

  /** The calls of a collision pass over the visited pairs, in visiting order. */
  function PassCalls(env: Env, pairs: seq<(ObjectRef, ObjectRef)>): seq<FieldCall> {
    if pairs == [] then []
    else
      var last := pairs[|pairs| - 1];
      PassCalls(env, pairs[..|pairs| - 1]) + CollisionCalls(env, last.0, last.1)
  }

  function HandleCollisionsSpec(env: Env, s: EngineState): EngineState {
    Performed(env, s, PassCalls(env, VisitedPairs(References(SpaceObjects(s.field)))))
  }

  const MoveCalls: seq<FieldCall> := [MoveShip, MoveAsteroids, MoveMissiles]
  const TrimCalls: seq<FieldCall> := [TrimAsteroids, TrimMissiles, TrimExplosions]

  /** The spawn rule: an asteroid appears when the drawn probability does not
      exceed the configured threshold. */
  predicate SpawnsAsteroid(probability: real, threshold: real) {
    probability <= threshold
  }

  function GenerateAsteroidsSpec(env: Env, s: EngineState): EngineState {
    var s1 := s.(draws := s.draws + 1);
    if SpawnsAsteroid(env.generator(s.draws), env.config.asteroidProbability) then Performed(env, s1, [GenerateAsteroid])
    else s1
  }

  function UpdateScoreBoardSpec(env: Env, s: EngineState): (r: EngineState)
    requires Consistent(s)
    ensures Consistent(r) && !r.newPlayer
  {
    if s.newPlayer then
      s.(scoreboard := AddCurrentScore(s.scoreboard, env.clock(s.clockReads), s.field.score, s.field.explodedAsteroids),
         clockReads := s.clockReads + 1,
         newPlayer := false)
    else
      s.(scoreboard := UpdateLastScore(s.scoreboard, s.field.score, s.field.explodedAsteroids))
  }

  function UpdateLeaderboardSpec(s: EngineState): EngineState {
    s.(leaderboard := Leaderboard(s.scoreboard))
  }

  function UpdateSpaceObjectsSpec(env: Env, s: EngineState): (r: EngineState)
    requires Consistent(s)
    ensures Consistent(r)
  {
    if !s.playing then s else PlayingUpdateSpec(env, s)
  }

  /** The update of a game that is not paused: collisions, moves, trims, the
      asteroid spawn, then the scoreboard and the leaderboard. */
  function PlayingUpdateSpec(env: Env, s: EngineState): (r: EngineState)
    requires Consistent(s) && s.playing
    ensures Consistent(r)
  {
    var s1 := HandleCollisionsSpec(env, s);
    var s2 := Performed(env, Performed(env, s1, MoveCalls), TrimCalls);
    UpdateLeaderboardSpec(UpdateScoreBoardSpec(env, GenerateAsteroidsSpec(env, s2)))
  }

  function RenderSpec(s: EngineState): EngineState {
    s.(frames := s.frames + [s.field])
  }

  function TickSpec(env: Env, s: EngineState): (r: EngineState)
    requires Consistent(s)
    ensures Consistent(r)
  {
    RenderSpec(UpdateSpaceObjectsSpec(env, ProcessPlayerInputSpec(env, s)))
  }

  /** `n` ticks in a row. */
  function Run(env: Env, s: EngineState, n: nat): (r: EngineState)
    requires Consistent(s)
    ensures Consistent(r)
    decreases n
  {
    if n == 0 then s else Run(env, TickSpec(env, s), n - 1)
  }

  /** The last of `n + 1` ticks runs on the state the first `n` leave. */
  lemma {:induction false} RunSnoc(env: Env, s: EngineState, n: nat)
    requires Consistent(s)
    ensures Run(env, s, n + 1) == TickSpec(env, Run(env, s, n))
    decreases n
  {
    if n > 0 {
      RunSnoc(env, TickSpec(env, s), n - 1);
    }
  }

  // ---------------------------------------------------------------------------
  // The engine object

  class GameEngine {
    const env: Env
    var playing: bool
    var newPlayer: bool
    var field: Field
    var commands: seq<PlayerCommand>
    var draws: nat
    var clockReads: nat
    var frames: seq<Field>
    var calls: seq<FieldCall>
    var scoreboard: seq<Score>
    var leaderboard: seq<Score>

    function State(): EngineState
      reads this
    {
      EngineState(playing, newPlayer, field, commands, draws, clockReads, frames, calls, scoreboard, leaderboard)
    }

    predicate Valid()
      reads this
    {
      Consistent(State())
    }

    /** A new engine plays, waits for its first score update, and has made no call,
        drawn nothing and rendered nothing yet. */
    constructor (env: Env, field: Field, commands: seq<PlayerCommand>, scoreboard: seq<Score>, leaderboard: seq<Score>)
      ensures this.env == env && Valid()
      ensures State() == EngineState(true, true, field, commands, 0, 0, [], [], scoreboard, leaderboard)
    {
      this.env := env;
      playing, newPlayer := true, true;
      this.field, this.commands := field, commands;
      draws, clockReads := 0, 0;
      frames, calls := [], [];
      this.scoreboard, this.leaderboard := scoreboard, leaderboard;
    }

    /** `execute(maxIterations)`: `repeat` runs no tick for a negative count. */
    method Execute(maxIterations: int)
      requires Valid()
      modifies this
      ensures Valid()
      ensures State() == Run(env, old(State()), if maxIterations < 0 then 0 else maxIterations)
    {
      var n := if maxIterations < 0 then 0 else maxIterations;
      for i := 0 to n
        invariant Valid()
        invariant State() == Run(env, old(State()), i)
      {
        Tick();
        RunSnoc(env, old(State()), i);
      }
    }

    method Tick()
      requires Valid()
      modifies this
      ensures Valid()
      ensures State() == TickSpec(env, old(State()))
    {
      ProcessPlayerInput();
      UpdateSpaceObjects();
      RenderSpaceField();
    }

    /** The controller port: the next pending command, if there is one. */
    method NextPlayerCommand() returns (c: Option<PlayerCommand>)
      modifies this`commands
      ensures old(commands) == [] ==> c == None && commands == []
      ensures old(commands) != [] ==> c == Some(old(commands)[0]) && commands == old(commands)[1..]
    {
      if commands == [] {
        c := None;
      } else {
        c := Some(commands[0]);
        commands := commands[1..];
      }
    }

    /** Makes one call into the field. */
    method Invoke(c: FieldCall)
      modifies this`calls, this`field
      ensures State() == Performed(env, old(State()), [c])
    {
      PerformedOne(env, State(), c);
      calls := calls + [c];
      field := Apply(env.ops, field, c);
    }

    method ProcessPlayerInput()
      modifies this
      ensures State() == ProcessPlayerInputSpec(env, old(State()))
    {
      var next := NextPlayerCommand();
      match next
      case None =>
      case Some(c) =>
        match c {
          case MoveShipUp => Invoke(Boost(Up));
          case MoveShipDown => Invoke(Boost(Down));
          case MoveShipLeft => Invoke(Boost(Left));
          case MoveShipRight => Invoke(Boost(Right));
          case LaunchMissile => Invoke(GenerateMissile);
          case PauseGame => playing := !playing;
        }
    }

    method UpdateSpaceObjects()
      requires Valid()
      modifies this
      ensures Valid()
      ensures State() == UpdateSpaceObjectsSpec(env, old(State()))
    {
      if !playing {
        return;
      }
      HandleCollisions();
      MoveSpaceObjects();
      TrimSpaceObjects();
      GenerateAsteroids();
      UpdateScoreBoard();
      UpdateLeaderboard();
    }

    method UpdateLeaderboard()
      modifies this`leaderboard
      ensures State() == UpdateLeaderboardSpec(old(State()))
    {
      var sorted := SortByScoreDescending(scoreboard);
      leaderboard := if |sorted| > LeaderboardSize then sorted[..LeaderboardSize] else sorted;
    }

    method UpdateScoreBoard()
      requires Valid()
      modifies this`scoreboard, this`newPlayer, this`clockReads
      ensures Valid()
      ensures State() == UpdateScoreBoardSpec(env, old(State()))
    {
      if newPlayer {
        var now := ReadClock();
        scoreboard := scoreboard + [Score(now, field.score, field.explodedAsteroids)];
        newPlayer := false;
      } else {
        var lastScore := scoreboard[|scoreboard| - 1];
        scoreboard := scoreboard[|scoreboard| - 1 := lastScore.(score := field.score,
                                                                asteroidsDestroyed := field.explodedAsteroids + 1)];
      }
    }

    /** The clock port: `Date()`. */
    method ReadClock() returns (now: int)
      modifies this`clockReads
      ensures now == env.clock(old(clockReads)) && clockReads == old(clockReads) + 1
    {
      now := env.clock(clockReads);
      clockReads := clockReads + 1;
    }

    method HandleCollisions()
      modifies this
      ensures State() == HandleCollisionsSpec(env, old(State()))
    {
      var _, pairs := ForEachPair(References(SpaceObjects(field)));
      for k := 0 to |pairs|
        invariant State() == Performed(env, old(State()), PassCalls(env, pairs[..k]))
      {
        MissileCollidesWithAsteroid(pairs[k].0, pairs[k].1);
        PerformedAppend(env, old(State()), PassCalls(env, pairs[..k]), CollisionCalls(env, pairs[k].0, pairs[k].1));
        assert pairs[..k + 1][..k] == pairs[..k];
      }
      assert pairs[..|pairs|] == pairs;
    }

    method MissileCollidesWithAsteroid(first: ObjectRef, second: ObjectRef)
      modifies this`calls, this`field
      ensures State() == Performed(env, old(State()), CollisionCalls(env, first, second))
    {
      if !env.ops.impacts(first.value, second.value) {
        assert Performed(env, State(), []) == State() by { assert calls + [] == calls; }
        return;
      }
      var collide := CollideWith(first, second, env.config.coefficientRestitution);
      Invoke(collide);
      if first.value.kind == Missile && second.value.kind == Asteroid {
        Invoke(GenerateExplosion(first, second));
        PerformedAppend(env, old(State()), [collide], [GenerateExplosion(first, second)]);
        assert CollisionCalls(env, first, second) == [collide] + [GenerateExplosion(first, second)];
      }
      if first.value.kind == Asteroid && second.value.kind == Missile {
        Invoke(GenerateExplosion(second, first));
        PerformedAppend(env, old(State()), [collide], [GenerateExplosion(second, first)]);
        assert CollisionCalls(env, first, second) == [collide] + [GenerateExplosion(second, first)];
      }
      if !(first.value.kind == Missile && second.value.kind == Asteroid) && !(first.value.kind == Asteroid && second.value.kind == Missile) {
        assert CollisionCalls(env, first, second) == [collide];
      }
    }

    method MoveSpaceObjects()
      modifies this`calls, this`field
      ensures State() == Performed(env, old(State()), MoveCalls)
    {
      Invoke(MoveShip);
      Invoke(MoveAsteroids);
      PerformedAppend(env, old(State()), [MoveShip], [MoveAsteroids]);
      Invoke(MoveMissiles);
      PerformedAppend(env, old(State()), [MoveShip] + [MoveAsteroids], [MoveMissiles]);
      assert [MoveShip] + [MoveAsteroids] + [MoveMissiles] == MoveCalls;
    }

    method TrimSpaceObjects()
      modifies this`calls, this`field
      ensures State() == Performed(env, old(State()), TrimCalls)
    {
      Invoke(TrimAsteroids);
      Invoke(TrimMissiles);
      PerformedAppend(env, old(State()), [TrimAsteroids], [TrimMissiles]);
      Invoke(TrimExplosions);
      PerformedAppend(env, old(State()), [TrimAsteroids] + [TrimMissiles], [TrimExplosions]);
      assert [TrimAsteroids] + [TrimMissiles] + [TrimExplosions] == TrimCalls;
    }

    /** The random generator port: the next probability. */
    method GenerateProbability() returns (p: real)
      modifies this`draws
      ensures p == env.generator(old(draws)) && draws == old(draws) + 1
    {
      p := env.generator(draws);
      draws := draws + 1;
    }

    method GenerateAsteroids()
      modifies this`draws, this`calls, this`field
      ensures State() == GenerateAsteroidsSpec(env, old(State()))
    {
      var probability := GenerateProbability();
      if probability <= env.config.asteroidProbability {
        Invoke(GenerateAsteroid);
      }
    }

    method RenderSpaceField()
      modifies this`frames
      ensures State() == RenderSpec(old(State()))
    {
      frames := frames + [field];
    }
  }
}
