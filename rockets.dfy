/**
 * The ascending rocket of the fireworks script (`class Rocket`): its launch
 * state, the per-frame `update` and the detonation it requests.
 */
module Rockets {
  import opened Optional
  import opened Random
  import opened Trails
  import Colors
  import opened Tuning

  /** Per-tick velocity damping of a rocket. */
  const Damping: real := 0.999
  const RocketTrailCap: nat := 12
  /** Fade budget stored with every rocket trail point. */
  const RocketTrailLife: int := 8
  /** A rocket older than this many ticks detonates. */
  const MaxAge: int := 120
  /** A rocket falling faster than this detonates. */
  const FallLimit: real := 3.5
  /** 18 * 18: `Math.sqrt(dx*dx + dy*dy) < 18` is tested without the root. */
  const ReachSquared: real := 324.0

  datatype SizeClass = Normal | Big

  /** The call `explode(x, y, color, size)` a detonating rocket makes. */
  datatype Burst = Burst(x: real, y: real, color: string, size: SizeClass)

  /**
   * The launch draws of the constructor: the heading toward the target as the
   * unit vector (cos, sin) of the atan2 angle, and the Math.random draws of
   * `rand(5.5, 8.5)`, `rand(-0.5, 0.5)` and `rand(-1, 1)`.
   */
  datatype Aim = Aim(dirX: real, dirY: real, uSpeed: real, uJitterX: real, uJitterY: real)

  /** (dx, dy) has length 1. */
  predicate IsUnit(dx: real, dy: real) { dx * dx + dy * dy == 1.0 }

  /**
   * (dirX, dirY) is (cos θ, sin θ) for θ = Math.atan2(dy, dx): the unit vector
   * along (dx, dy), or (1, 0) when both are zero, since atan2(0, 0) is 0.
   */
  predicate Heads(dirX: real, dirY: real, dx: real, dy: real)
  {
    && IsUnit(dirX, dirY)
    && dirX * dy == dirY * dx
    && dirX * dx + dirY * dy >= 0.0
    && (dx == 0.0 && dy == 0.0 ==> dirX == 1.0 && dirY == 0.0)
  }

  /**
   * A target above the start gives an upward heading, and a target straight
   * above gives the heading (0, -1).
   */
  lemma HeadsUp(dirX: real, dirY: real, dx: real, dy: real)
    requires Heads(dirX, dirY, dx, dy) && dy < 0.0
    ensures dirY < 0.0
    ensures dx == 0.0 ==> dirX == 0.0 && dirY == -1.0
  {
  }

  /** The draws of a rocket launched along the offset (dx, dy) from start to target. */
  predicate ValidAim(a: Aim, dx: real, dy: real)
  {
    && Heads(a.dirX, a.dirY, dx, dy)
    && 0.0 <= a.uSpeed < 1.0 && 0.0 <= a.uJitterX < 1.0 && 0.0 <= a.uJitterY < 1.0
  }

  /** All fields of a rocket; `life` counts the ticks since launch. */
  datatype RocketState = RocketState(
    x: real, y: real, vx: real, vy: real, tx: real, ty: real,
    color: string, trail: seq<TrailPoint>, isCentral: bool, exploded: bool, life: int)

  /** The state the constructor builds. */
  function Launch(x: real, y: real, tx: real, ty: real, color: string, isCentral: bool, aim: Aim): (s: RocketState)
    requires ValidAim(aim, tx - x, ty - y)
    ensures s.x == x && s.y == y && s.tx == tx && s.ty == ty
    ensures s.color == color && s.isCentral == isCentral
    ensures s.trail == [] && !s.exploded && s.life == 0
    ensures var speed := Rand(5.5, 8.5, aim.uSpeed);
      5.5 <= speed <= 8.5
      && aim.dirX * speed - 0.5 <= s.vx <= aim.dirX * speed + 0.5
      && aim.dirY * speed - 1.0 <= s.vy <= aim.dirY * speed + 1.0
  {
    var speed := Rand(5.5, 8.5, aim.uSpeed);
    RocketState(x, y,
      aim.dirX * speed + Rand(-0.5, 0.5, aim.uJitterX),
      aim.dirY * speed + Rand(-1.0, 1.0, aim.uJitterY),
      tx, ty, color, [], isCentral, false, 0)
  }

  /** Steps 1-5 of `update`: age, trail, gravity, damping, motion. */
  function Advance(s: RocketState): (m: RocketState)
    ensures m.life == s.life + 1
    ensures m.tx == s.tx && m.ty == s.ty && m.color == s.color && m.isCentral == s.isCentral
    ensures m.exploded == s.exploded
  {
    var vx := s.vx * Damping;
    var vy := (s.vy + Gravity * 0.05) * Damping;
    s.(life := s.life + 1,
       trail := Pushed(s.trail, TrailPoint(s.x, s.y, RocketTrailLife), RocketTrailCap),
       vx := vx, vy := vy, x := s.x + vx, y := s.y + vy)
  }

  /** `Math.sqrt(dx*dx + dy*dy) < 18` for the offset (dx, dy) from rocket to target. */
  predicate Near(dx: real, dy: real)
  {
    dx * dx + dy * dy < ReachSquared
  }

  /** The detonation test on the moved rocket: near the target, too old, or falling. */
  predicate Triggered(m: RocketState)
  {
    Near(m.tx - m.x, m.ty - m.y) || m.life > MaxAge || m.vy > FallLimit
  }

  /**
   * One `update`; `exploded` latches once the test fires. Its trail and motion
   * are described by StepTrail and StepMotion.
   */
  function RocketStep(s: RocketState): (t: RocketState)
    ensures t.life == s.life + 1
    ensures t.exploded <==> s.exploded || Triggered(t)
    ensures |s.trail| <= RocketTrailCap ==> |t.trail| <= RocketTrailCap
  {
    var m := Advance(s);
    m.(exploded := s.exploded || Triggered(m))
  }

  /** An update appends the old position to the trail and keeps it within the cap. */
  lemma StepTrail(s: RocketState)
    ensures var t := RocketStep(s);
      t.trail != [] && t.trail[|t.trail| - 1] == TrailPoint(s.x, s.y, RocketTrailLife)
    ensures |s.trail| <= RocketTrailCap ==> |RocketStep(s).trail| <= RocketTrailCap
  {
    PushedEnds(s.trail, TrailPoint(s.x, s.y, RocketTrailLife), RocketTrailCap);
  }

  /** An update damps vx and leaves the target, colour and kind alone. */
  lemma StepMotion(s: RocketState)
    ensures var t := RocketStep(s);
      && t.vx == s.vx * Damping
      && t.tx == s.tx && t.ty == s.ty && t.color == s.color && t.isCentral == s.isCentral
  {
  }

  /** The explosion an updated rocket requests: big exactly for the central rocket. */
  function Detonation(t: RocketState): (b: Option<Burst>)
    ensures b.Some? <==> Triggered(t)
    ensures b.Some? ==> b.value.x == t.x && b.value.y == t.y && b.value.color == t.color
    ensures b.Some? ==> (b.value.size == Big <==> t.isCentral)
  {
    if Triggered(t) then Some(Burst(t.x, t.y, t.color, if t.isCentral then Big else Normal)) else None
  }

  // ---------------------------------------------------------------------------
  // Many updates

  /** The rocket after n updates. */
  function RocketRun(s: RocketState, n: nat): (r: RocketState)
    ensures r.tx == s.tx && r.ty == s.ty && r.color == s.color && r.isCentral == s.isCentral
  {
    if n == 0 then s else RocketStep(RocketRun(s, n - 1))
  }

  function Pow(b: real, n: nat): real
  {
    if n == 0 then 1.0 else b * Pow(b, n - 1)
  }

  /** Each update ages the rocket by exactly one tick. */
  lemma {:induction false} RunLife(s: RocketState, n: nat)
    ensures RocketRun(s, n).life == s.life + n
  {
    if n > 0 {
      RunLife(s, n - 1);
    }
  }

  /** The trail never holds more than 12 points. */
  lemma {:induction false} RunTrailBounded(s: RocketState, n: nat)
    requires |s.trail| <= RocketTrailCap
    ensures |RocketRun(s, n).trail| <= RocketTrailCap
  {
    if n > 0 {
      RunTrailBounded(s, n - 1);
    }
  }

  /** Once exploded, a rocket stays exploded. */
  lemma {:induction false} RunKeepsExploded(s: RocketState, n: nat)
    requires s.exploded
    ensures RocketRun(s, n).exploded
  {
    if n > 0 {
      RunKeepsExploded(s, n - 1);
    }
  }

  /** The update that takes the age past 120 detonates: a new rocket explodes by its 121st update. */
  lemma ExplodesByAge(s: RocketState, n: nat)
    requires n >= 1 && s.life + n > MaxAge
    ensures RocketRun(s, n).exploded
  {
    RunLife(s, n);
  }

  /** A freshly launched rocket has exploded after 121 updates, whatever its path. */
  lemma LaunchedRocketExplodes(x: real, y: real, tx: real, ty: real, color: string, isCentral: bool, aim: Aim)
    requires ValidAim(aim, tx - x, ty - y)
    ensures RocketRun(Launch(x, y, tx, ty, color, isCentral, aim), 121).exploded
  {
    ExplodesByAge(Launch(x, y, tx, ty, color, isCentral, aim), 121);
  }

  /** Horizontal speed decays geometrically by 0.999 and never changes sign. */
  lemma {:induction false} RunDampsVx(s: RocketState, n: nat)
    ensures RocketRun(s, n).vx == s.vx * Pow(Damping, n)
    ensures s.vx > 0.0 ==> RocketRun(s, n).vx > 0.0
    ensures s.vx < 0.0 ==> RocketRun(s, n).vx < 0.0
    ensures s.vx == 0.0 ==> RocketRun(s, n).vx == 0.0
  {
    if n > 0 {
      RunDampsVx(s, n - 1);
      StepMotion(RocketRun(s, n - 1));
      var v := RocketRun(s, n - 1).vx;
      assert RocketRun(s, n).vx == v * Damping;
      assert s.vx * Pow(Damping, n) == (s.vx * Pow(Damping, n - 1)) * Damping;
      if v > 0.0 {
        assert v * Damping > 0.0;
      } else if v < 0.0 {
        assert (-v) * Damping > 0.0;
      }
    }
  }

  // ---------------------------------------------------------------------------
  // The object

  class Rocket {
    var x: real
    var y: real
    var vx: real
    var vy: real
    const tx: real
    const ty: real
    const color: string
    const isCentral: bool
    var trail: seq<TrailPoint>
    var exploded: bool
    /** Ticks since launch. */
    var life: int

    ghost function State(): RocketState
      reads this
    {
      RocketState(x, y, vx, vy, tx, ty, color, trail, isCentral, exploded, life)
    }

    /** A bounded trail and a hex colour token, which `explode` can shade. */
    ghost predicate Valid()
      reads this
    {
      |trail| <= RocketTrailCap && Colors.IsHexToken(color)
    }

    /** `new Rocket(x, y, tx, ty, color, isCentral)`. */
    constructor (x0: real, y0: real, tx0: real, ty0: real, color0: string, central: bool, aim: Aim)
      requires ValidAim(aim, tx0 - x0, ty0 - y0)
      ensures State() == Launch(x0, y0, tx0, ty0, color0, central, aim)
      ensures Colors.IsHexToken(color0) ==> Valid()
    {
      var speed := Rand(5.5, 8.5, aim.uSpeed);
      x, y := x0, y0;
      vx := aim.dirX * speed + Rand(-0.5, 0.5, aim.uJitterX);
      vy := aim.dirY * speed + Rand(-1.0, 1.0, aim.uJitterY);
      tx, ty := tx0, ty0;
      color := color0;
      trail := [];
      isCentral := central;
      exploded := false;
      life := 0;
    }

    /** `update()`: the explosion it triggers is returned as a request. */
    method Update() returns (burst: Option<Burst>)
      requires Valid()
      modifies this
      ensures Valid()
      ensures State() == RocketStep(old(State()))
      ensures burst == Detonation(State())
    {
      ghost var before := State();
      life := life + 1;
      trail := trail + [TrailPoint(x, y, RocketTrailLife)];
      if |trail| > RocketTrailCap {
        trail := trail[1..];
      }
      vy := vy + Gravity * 0.05;
      vx := vx * Damping;
      vy := vy * Damping;
      x := x + vx;
      y := y + vy;
      ghost var moved := Advance(before);
      assert trail == moved.trail;
      assert x == moved.x && y == moved.y && vx == moved.vx && vy == moved.vy && life == moved.life;
      var dx := tx - x;
      var dy := ty - y;
      assert dx == moved.tx - moved.x && dy == moved.ty - moved.y;
      var hit := Near(dx, dy) || life > MaxAge || vy > FallLimit;
      assert hit == Triggered(moved);
      if hit {
        exploded := true;
        burst := Some(Burst(x, y, color, if isCentral then Big else Normal));
      } else {
        burst := None;
      }
    }
  }
}
