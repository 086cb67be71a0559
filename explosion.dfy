/** The `Explosion` space object and its lifetime counter.  Kotlin `Int` is a
    32-bit two's-complement integer, so the counter is an `Int32` whose increment
    wraps from 2^31 - 1 to -2^31. */
module Explosions {
  import opened Physics

  const MaxInt32: int := 0x7FFF_FFFF
  const MinInt32: int := -0x8000_0000

  newtype Int32 = x: int | -0x8000_0000 <= x <= 0x7FFF_FFFF

  /** `+= 1` on a Kotlin `Int`: the one 32-bit value congruent to `c + 1` modulo
      2^32. */
  function Succ(c: Int32): (r: Int32)
    ensures (r as int - (c as int + 1)) % 0x1_0000_0000 == 0
  {
    if c == 0x7FFF_FFFF then -0x8000_0000 else c + 1
  }

  const DefaultLimit: Int32 := 50

  class Explosion {
    const kind: string := "Explosion"
    const symbol: char := '*'
    var center: Point2D
    var velocity: Vector2D
    var radius: real
    var mass: real
    var isTriggered: Int32
    var limit: Int32

    /** The constructor with the default counter (0) and limit (50). */
    constructor (initialPosition: Point2D, initialVelocity: Vector2D, radius: real, mass: real)
      ensures center == initialPosition && velocity == initialVelocity
      ensures this.radius == radius && this.mass == mass
      ensures isTriggered == 0 && limit == DefaultLimit
      ensures kind == "Explosion" && symbol == '*'
    {
      center, velocity := initialPosition, initialVelocity;
      this.radius, this.mass := radius, mass;
      isTriggered, limit := 0, DefaultLimit;
    }

    /** The constructor with both counter arguments given. */
    constructor WithCounter(initialPosition: Point2D, initialVelocity: Vector2D, radius: real, mass: real,
                            isTriggered: Int32, limit: Int32)
      ensures center == initialPosition && velocity == initialVelocity
      ensures this.radius == radius && this.mass == mass
      ensures this.isTriggered == isTriggered && this.limit == limit
      ensures kind == "Explosion" && symbol == '*'
    {
      center, velocity := initialPosition, initialVelocity;
      this.radius, this.mass := radius, mass;
      this.isTriggered, this.limit := isTriggered, limit;
    }

    /** Advances the counter by one and tells whether the explosion is still alive. */
    method DesapeareExplosion() returns (alive: bool)
      modifies this`isTriggered
      ensures isTriggered == Succ(old(isTriggered))
      ensures alive <==> isTriggered < limit
    {
      isTriggered := Succ(isTriggered);
      alive := isTriggered < limit;
    }
  }

  /** The counter after `k` calls of `DesapeareExplosion` starting from `c`. */
  function CounterAfter(c: Int32, k: nat): Int32 {
    if k == 0 then c else Succ(CounterAfter(c, k - 1))
  }

  /** What the `k`-th call (k >= 1) returns, for a start counter `c`. */
  predicate AliveOnCall(c: Int32, limit: Int32, k: nat) {
    CounterAfter(c, k) < limit
  }

  /** Below the wrap-around, `k` calls add exactly `k` to the counter. */
  lemma {:induction false} CounterAfterAdds(c: Int32, k: nat)
    requires c as int + k <= MaxInt32
    ensures CounterAfter(c, k) as int == c as int + k
  {
    if k > 0 {
      CounterAfterAdds(c, k - 1);
    }
  }

  /** With the defaults, calls 1 to 49 report alive and every call from the 50th
      on reports expired, up to the 2^31 - 1 calls after which the counter wraps. */
  lemma DefaultLifetime(k: nat)
    requires 1 <= k <= MaxInt32
    ensures AliveOnCall(0, DefaultLimit, k) <==> k < 50
  {
    CounterAfterAdds(0, k);
  }

  /** Once a call has reported expired, every later call does too, as long as the
      counter stays below 2^31 - 1: the counter only grows and the limit is fixed. */
  lemma {:induction false} StaysExpired(c: Int32, limit: Int32, k: nat)
    requires c >= limit
    requires c as int + k <= MaxInt32
    ensures !AliveOnCall(c, limit, k)
    ensures CounterAfter(c, k) >= c
  {
    CounterAfterAdds(c, k);
  }

  /** The 32-bit counter wraps: the call after 2^31 - 1 calls from the default
      state reports alive again. */
  lemma DefaultRevivesAfterWrap()
    ensures !AliveOnCall(0, DefaultLimit, MaxInt32)
    ensures AliveOnCall(0, DefaultLimit, MaxInt32 + 1)
    ensures CounterAfter(0, MaxInt32 + 1) as int == MinInt32
  {
    CounterAfterAdds(0, MaxInt32);
  }
}
