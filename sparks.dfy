/**
 * The explosion fragment of the fireworks script (`class Spark`): its
 * construction, the per-frame `update` with friction, gravity, fading and the
 * one-shot flicker, and what any number of updates keeps true.
 */
module Sparks {
  import opened Random
  import opened Trails
  import opened Tuning

  const SparkTrailCap: nat := 10
  /** Chance per update that a flickering spark's alpha is scaled down. */
  const FlickerChance: real := 0.06

  /** All fields of a spark; `life` is real because big bursts scale it by 1.2. */
  datatype SparkState = SparkState(
    x: real, y: real, vx: real, vy: real, color: string,
    life: real, maxLife: real, size: real, alpha: real, flicker: bool,
    trail: seq<TrailPoint>)

  /** The two Math.random draws of one update: the 6% test and `rand(0.6, 1.0)`. */
  datatype Flick = Flick(uChance: real, uScale: real)

  predicate ValidFlick(f: Flick)
  {
    0.0 <= f.uChance < 1.0 && 0.0 <= f.uScale < 1.0
  }

  /**
   * `new Spark(x, y, color, speed, angle, life, size, flicker)`, with the angle
   * given as its unit vector (cos, sin). The class constructor has the same
   * defaults as the script: size 2 and flicker on.
   */
  function Ignite(x: real, y: real, color: string, speed: real, dirX: real, dirY: real,
                  life: real, size: real, flicker: bool): (s: SparkState)
    ensures s.x == x && s.y == y && s.color == color && s.size == size && s.flicker == flicker
    ensures s.alpha == 1.0 && s.life == life && s.maxLife == life && s.trail == []
  {
    SparkState(x, y, dirX * speed, dirY * speed, color, life, life, size, 1.0, flicker, [])
  }

  /** `Math.max(0, life / maxLife)`. */
  function Fade(life: real, maxLife: real): (a: real)
    requires maxLife > 0.0
    ensures 0.0 <= a
    ensures life <= maxLife ==> a <= 1.0
    ensures a == 0.0 <==> life <= 0.0
  {
    var q := life / maxLife;
    assert life > 0.0 ==> q > 0.0;
    assert life <= maxLife ==> q <= 1.0;
    if q < 0.0 then 0.0 else q
  }

  /** The fade budget of a spark trail point: `Math.max(4, Math.floor(maxLife / 10))`. */
  function TrailLife(maxLife: real): (n: int)
    ensures n >= 4
    ensures n == 4 || n == (maxLife / 10.0).Floor
    ensures n >= (maxLife / 10.0).Floor
  {
    var f := (maxLife / 10.0).Floor;
    if f < 4 then 4 else f
  }

  /** The alpha of an update: the fade, scaled once by the flicker draw when it fires. */
  function Flickered(fade: real, flicker: bool, f: Flick): (a: real)
    requires 0.0 <= fade && ValidFlick(f)
    ensures 0.6 * fade <= a <= fade
    ensures !flicker || f.uChance >= FlickerChance ==> a == fade
  {
    if flicker && f.uChance < FlickerChance then
      var k := Rand(0.6, 1.0, f.uScale);
      ScaleWithin(fade, k);
      fade * k
    else fade
  }

  /** fade * k for 0.6 <= k <= 1 stays between 0.6 * fade and fade. */
  lemma ScaleWithin(fade: real, k: real)
    requires 0.0 <= fade && 0.6 <= k <= 1.0
    ensures 0.6 * fade <= fade * k <= fade
  {
    assert fade * k - 0.6 * fade == fade * (k - 0.6);
    assert fade - fade * k == fade * (1.0 - k);
    assert fade * (k - 0.6) >= 0.0;
    assert fade * (1.0 - k) >= 0.0;
  }

  /**
   * One `update()`. Its alpha and trail are described by StepAlpha and
   * StepTrail, kept apart so that callers stepping many sparks do not carry them.
   */
  function SparkStep(s: SparkState, f: Flick): (t: SparkState)
    requires s.maxLife > 0.0 && ValidFlick(f)
    ensures t.life == s.life - 1.0 && t.maxLife == s.maxLife
  {
    var vx := s.vx * SparkFriction;
    var vy := s.vy * SparkFriction + Gravity;
    var life := s.life - 1.0;
    s.(trail := Pushed(s.trail, TrailPoint(s.x, s.y, TrailLife(s.maxLife)), SparkTrailCap),
       vx := vx, vy := vy, x := s.x + vx, y := s.y + vy,
       life := life,
       alpha := Flickered(Fade(life, s.maxLife), s.flicker, f))
  }

  /** After an update alpha is the fade of the new life, dimmed by at most 40% by the flicker. */
  lemma StepAlpha(s: SparkState, f: Flick)
    requires s.maxLife > 0.0 && ValidFlick(f)
    ensures var t := SparkStep(s, f);
      0.6 * Fade(t.life, t.maxLife) <= t.alpha <= Fade(t.life, t.maxLife)
    ensures !s.flicker ==> SparkStep(s, f).alpha == Fade(s.life - 1.0, s.maxLife)
  {
  }

  /** An update appends the old position to the trail and keeps it within the cap. */
  lemma StepTrail(s: SparkState, f: Flick)
    requires s.maxLife > 0.0 && ValidFlick(f)
    ensures var t := SparkStep(s, f);
      t.trail != [] && t.trail[|t.trail| - 1] == TrailPoint(s.x, s.y, TrailLife(s.maxLife))
    ensures |s.trail| <= SparkTrailCap ==> |SparkStep(s, f).trail| <= SparkTrailCap
  {
    PushedEnds(s.trail, TrailPoint(s.x, s.y, TrailLife(s.maxLife)), SparkTrailCap);
  }

  /**
   * What every live spark satisfies: positive maxLife, life never above it,
   * alpha in [0, 1], at most 10 trail points, each with a fade budget of 4 or more.
   */
  ghost predicate SparkInv(s: SparkState)
  {
    && s.maxLife > 0.0 && s.life <= s.maxLife
    && 0.0 <= s.alpha <= 1.0
    && |s.trail| <= SparkTrailCap
    && forall i :: 0 <= i < |s.trail| ==> s.trail[i].life >= 4
  }

  /** A spark created with positive life satisfies the invariant. */
  lemma IgniteInv(x: real, y: real, color: string, speed: real, dirX: real, dirY: real,
                  life: real, size: real, flicker: bool)
    requires life > 0.0
    ensures SparkInv(Ignite(x, y, color, speed, dirX, dirY, life, size, flicker))
  {
  }

  /** An update keeps the invariant. */
  lemma StepKeepsInv(s: SparkState, f: Flick)
    requires SparkInv(s) && ValidFlick(f)
    ensures SparkInv(SparkStep(s, f))
  {
    var p := TrailPoint(s.x, s.y, TrailLife(s.maxLife));
    StepAlpha(s, f);
    StepTrail(s, f);
    PushedFrom(s.trail, p, SparkTrailCap, (q: TrailPoint) => q.life >= 4);
  }

  /** The flicker scales only the freshly computed fade: the previous alpha does not matter. */
  lemma FlickerIsNotCumulative(s: SparkState, a: real, f: Flick)
    requires s.maxLife > 0.0 && ValidFlick(f)
    ensures SparkStep(s.(alpha := a), f) == SparkStep(s, f)
  {
  }

  // ---------------------------------------------------------------------------
  // Many updates

  predicate AllValid(fs: seq<Flick>)
  {
    forall i :: 0 <= i < |fs| ==> ValidFlick(fs[i])
  }

  /** The spark after one update per draw of `fs`. */
  function SparkRun(s: SparkState, fs: seq<Flick>): (t: SparkState)
    requires s.maxLife > 0.0 && AllValid(fs)
    ensures t.maxLife == s.maxLife
  {
    if fs == [] then s else SparkStep(SparkRun(s, fs[..|fs| - 1]), fs[|fs| - 1])
  }

  /** life drops by exactly one per update. */
  lemma {:induction false} RunLife(s: SparkState, fs: seq<Flick>)
    requires s.maxLife > 0.0 && AllValid(fs)
    ensures SparkRun(s, fs).life == s.life - |fs| as real
  {
    if fs != [] {
      RunLife(s, fs[..|fs| - 1]);
    }
  }

  /** After any number of updates alpha is in [0, 1] and the trail is bounded. */
  lemma {:induction false} RunKeepsInv(s: SparkState, fs: seq<Flick>)
    requires SparkInv(s) && AllValid(fs)
    ensures SparkInv(SparkRun(s, fs))
  {
    if fs != [] {
      RunKeepsInv(s, fs[..|fs| - 1]);
      StepKeepsInv(SparkRun(s, fs[..|fs| - 1]), fs[|fs| - 1]);
    }
  }

  /** Once as many updates as its life have run, the spark's life is spent. */
  lemma LifeRunsOut(s: SparkState, fs: seq<Flick>)
    requires s.maxLife > 0.0 && AllValid(fs)
    requires |fs| as real >= s.life
    ensures SparkRun(s, fs).life <= 0.0
    ensures Fade(SparkRun(s, fs).life, s.maxLife) == 0.0
  {
    RunLife(s, fs);
  }

  // ---------------------------------------------------------------------------
  // The object

  class Spark {
    var x: real
    var y: real
    var vx: real
    var vy: real
    const color: string
    var life: real
    const maxLife: real
    const size: real
    var alpha: real
    const flicker: bool
    var trail: seq<TrailPoint>

    ghost function State(): SparkState
      reads this
    {
      SparkState(x, y, vx, vy, color, life, maxLife, size, alpha, flicker, trail)
    }

    ghost predicate Valid()
      reads this
    {
      SparkInv(State())
    }

    constructor (x0: real, y0: real, color0: string, speed: real, dirX: real, dirY: real,
                 life0: real, size0: real := 2.0, flicker0: bool := true)
      ensures State() == Ignite(x0, y0, color0, speed, dirX, dirY, life0, size0, flicker0)
      ensures life0 > 0.0 ==> Valid()
    {
      x, y := x0, y0;
      vx := dirX * speed;
      vy := dirY * speed;
      color := color0;
      life, maxLife := life0, life0;
      size, alpha := size0, 1.0;
      flicker, trail := flicker0, [];
    }

    /** `update()`, with its Math.random draws passed in as `f`. */
    method Update(f: Flick)
      requires Valid() && ValidFlick(f)
      modifies this
      ensures Valid()
      ensures State() == SparkStep(old(State()), f)
    {
      ghost var before := State();
      ghost var after := SparkStep(before, f);
      trail := trail + [TrailPoint(x, y, TrailLife(maxLife))];
      if |trail| > SparkTrailCap {
        trail := trail[1..];
      }
      assert trail == after.trail;
      vx := vx * SparkFriction;
      vy := vy * SparkFriction;
      vy := vy + Gravity;
      assert vx == after.vx && vy == after.vy;
      x := x + vx;
      y := y + vy;
      assert x == after.x && y == after.y;
      life := life - 1.0;
      alpha := Fade(life, maxLife);
      if flicker && f.uChance < FlickerChance {
        alpha := alpha * Rand(0.6, 1.0, f.uScale);
      }
      assert life == after.life && alpha == after.alpha;
      StepKeepsInv(before, f);
    }
  }
}
