/**
 * The world of the fireworks script: the global `rockets` and `sparks` arrays,
 * the starfield and `lastTime`, and the operations that change them: `explode`
 * and its delayed secondary burst, `spawnBackgroundFirework`, `launchCentral`,
 * `buildStars`, the phase advance of `drawStars`, and one frame of `loop`.
 *
 * The arrays hold the states of their rockets and sparks (RocketState,
 * SparkState); a pass replaces an entry by its update, RocketStep or
 * SparkStep, which the classes Rocket and Spark are proved to perform in place.
 */
module Fireworks {
  import opened Optional
  import opened Random
  import opened Tuning
  import Colors
  import opened Rockets
  import opened Sparks

  // ---------------------------------------------------------------------------
  // Draws of Math.random (and of the trigonometry and Gaussian left to the caller)

  /**
   * Draws for one spark of a primary burst: the angle as its unit vector, the
   * `randGaussian()` sample, and the Math.random draws of the speed factor,
   * `randInt(40, 110)`, the size and `rand(-40, 40)`.
   */
  datatype SparkDraw = SparkDraw(dirX: real, dirY: real, gauss: real,
                                 uSpeed: real, uLife: real, uSize: real, uShade: real)

  /** Draws for one `explode` call; `sparks` holds enough for the biggest batch. */
  datatype BurstDraw = BurstDraw(uColor: real, uCount: real, uSpread: real, uSpeedBase: real,
                                 uDelay: real, sparks: seq<SparkDraw>)

  /** Draws for one spark of the secondary burst. */
  datatype CrackleSparkDraw = CrackleSparkDraw(dirX: real, dirY: real, uJitterX: real, uJitterY: real,
                                               uColor: real, uSpeed: real, uLife: real, uSize: real)

  datatype CrackleDraw = CrackleDraw(uCount: real, sparks: seq<CrackleSparkDraw>)

  /** Draws for `spawnBackgroundFirework`. */
  datatype LaunchDraw = LaunchDraw(uTx: real, uTy: real, uSx: real, uColor: real, aim: Aim)

  /** Draws for `launchCentral`: `rand(-120, 120)`, the colour and the launch. */
  datatype CentralDraw = CentralDraw(uStart: real, uColor: real, aim: Aim)

  /** Draws for one star of `buildStars`. */
  datatype StarDraw = StarDraw(uX: real, uY: real, uR: real, uAlpha: real, uFlick: real, uPhase: real)

  /**
   * Draws for one frame of `loop`: the stars (used only when the starfield is
   * still empty), one explosion per rocket, one flicker draw per spark alive
   * after the rocket pass, the spawn test and count, and one launch per spawn.
   */
  datatype FrameDraw = FrameDraw(stars: seq<StarDraw>, bursts: seq<BurstDraw>, flicks: seq<Flick>,
                                 uSpawn: real, uCount: real, launches: seq<LaunchDraw>)

  predicate IsDraw(u: real) { 0.0 <= u < 1.0 }

  predicate ValidSparkDraw(d: SparkDraw)
  {
    IsUnit(d.dirX, d.dirY) && IsDraw(d.uSpeed) && IsDraw(d.uLife) && IsDraw(d.uSize) && IsDraw(d.uShade)
  }

  predicate ValidBurstDraw(b: BurstDraw)
  {
    && IsDraw(b.uColor) && IsDraw(b.uCount) && IsDraw(b.uSpread) && IsDraw(b.uSpeedBase) && IsDraw(b.uDelay)
    && |b.sparks| >= ParticleCount
    && forall i :: 0 <= i < |b.sparks| ==> ValidSparkDraw(b.sparks[i])
  }

  predicate ValidCrackleSparkDraw(d: CrackleSparkDraw)
  {
    && IsUnit(d.dirX, d.dirY) && IsDraw(d.uJitterX) && IsDraw(d.uJitterY) && IsDraw(d.uColor)
    && IsDraw(d.uSpeed) && IsDraw(d.uLife) && IsDraw(d.uSize)
  }

  /** The secondary burst has at most 22 sparks. */
  predicate ValidCrackleDraw(c: CrackleDraw)
  {
    IsDraw(c.uCount) && |c.sparks| >= 22 && forall i :: 0 <= i < |c.sparks| ==> ValidCrackleSparkDraw(c.sparks[i])
  }

  /** The draws of `spawnBackgroundFirework`, with the heading from its start to its target. */
  predicate ValidLaunchDraw(cw: real, ch: real, d: LaunchDraw)
  {
    && IsDraw(d.uTx) && IsDraw(d.uTy) && IsDraw(d.uSx) && IsDraw(d.uColor)
    && ValidAim(d.aim, Rand(60.0, cw - 60.0, d.uTx) - Rand(40.0, cw - 40.0, d.uSx),
                Rand(60.0, ch * 0.5, d.uTy) - (ch + 10.0))
  }

  /** The draws of `launchCentral`, with the heading from its start to the centre point. */
  predicate ValidCentralDraw(cw: real, ch: real, d: CentralDraw)
  {
    && IsDraw(d.uStart) && IsDraw(d.uColor)
    && ValidAim(d.aim, cw / 2.0 - (cw / 2.0 + Rand(-120.0, 120.0, d.uStart)),
                (ch / 2.0 - 40.0) - (ch + 20.0))
  }

  predicate ValidStarDraw(d: StarDraw)
  {
    IsDraw(d.uX) && IsDraw(d.uY) && IsDraw(d.uR) && IsDraw(d.uAlpha) && IsDraw(d.uFlick) && IsDraw(d.uPhase)
  }

  predicate AllBurstDraws(ds: seq<BurstDraw>)
  {
    forall i :: 0 <= i < |ds| ==> ValidBurstDraw(ds[i])
  }

  predicate AllLaunchDraws(cw: real, ch: real, ds: seq<LaunchDraw>)
  {
    forall i :: 0 <= i < |ds| ==> ValidLaunchDraw(cw, ch, ds[i])
  }

  predicate AllStarDraws(ds: seq<StarDraw>)
  {
    forall i :: 0 <= i < |ds| ==> ValidStarDraw(ds[i])
  }

  predicate ValidFrameDraw(cw: real, ch: real, fd: FrameDraw)
  {
    && AllStarDraws(fd.stars) && AllBurstDraws(fd.bursts) && AllValid(fd.flicks)
    && IsDraw(fd.uSpawn) && IsDraw(fd.uCount) && AllLaunchDraws(cw, ch, fd.launches)
  }

  /** A callback the script defers with `setTimeout`, with its delay in milliseconds. */
  datatype Timer =
    | Crackle(x: real, y: real, delay: int)   // the secondary burst of a big explosion
    | Reveal(color: string, delay: int)       // revealTitle(color) after the central rocket detonates

  // ---------------------------------------------------------------------------
  // Explosion generator (script.js lines 133-161)

  /** `baseColor || randomColor()`. */
  function BurstColor(baseColor: string, uColor: real): (c: string)
    requires IsDraw(uColor)
    requires baseColor == [] || Colors.IsHexToken(baseColor)
    ensures Colors.IsHexToken(c)
    ensures baseColor != [] ==> c == baseColor
    ensures baseColor == [] ==> c in Colors.Palette
  {
    Colors.PaletteTokens();
    if baseColor != [] then baseColor else Colors.RandomColor(uColor)
  }

  /** The number of sparks of the primary batch. */
  function BatchSize(size: SizeClass, uCount: real): (n: nat)
    requires IsDraw(uCount)
    ensures size == Big ==> n == 180
    ensures size == Normal ==> 30 <= n <= 80
  {
    if size == Big then ParticleCount else RandInt(30, 80, uCount)
  }

  function Spread(size: SizeClass, u: real): (r: real)
    requires IsDraw(u)
    ensures size == Big ==> 0.9 <= r <= 1.2
    ensures size == Normal ==> 0.6 <= r <= 1.0
  {
    if size == Big then Rand(0.9, 1.2, u) else Rand(0.6, 1.0, u)
  }

  function SpeedBase(size: SizeClass, u: real): (r: real)
    requires IsDraw(u)
    ensures size == Big ==> 3.4 <= r <= 6.2
    ensures size == Normal ==> 2.0 <= r <= 4.6
  {
    if size == Big then Rand(3.4, 6.2, u) else Rand(2.0, 4.6, u)
  }

  /** `Math.abs(randGaussian() * 0.6 + 1) * speedBase * (0.6 + Math.random() * spread)`. */
  function PrimarySpeed(spread: real, speedBase: real, d: SparkDraw): (r: real)
    ensures 0.0 <= spread && 0.0 <= speedBase && 0.0 <= d.uSpeed ==> 0.0 <= r
  {
    Colors.Abs(d.gauss * 0.6 + 1.0) * speedBase * (0.6 + d.uSpeed * spread)
  }

  /** `randInt(40, 110)`, scaled by 1.2 for a big burst. */
  function PrimaryLife(size: SizeClass, d: SparkDraw): (life: real)
    requires ValidSparkDraw(d)
    ensures size == Normal ==> 40.0 <= life <= 110.0
    ensures size == Big ==> 48.0 <= life <= 132.0
  {
    RandInt(40, 110, d.uLife) as real * (if size == Big then 1.2 else 1.0)
  }

  function PrimarySize(size: SizeClass, d: SparkDraw): (sz: real)
    requires ValidSparkDraw(d)
    ensures size == Normal ==> 0.9 <= sz <= 2.2
    ensures size == Big ==> 1.6 <= sz <= 3.2
  {
    if size == Big then Rand(1.6, 3.2, d.uSize) else Rand(0.9, 2.2, d.uSize)
  }

  /** The burst colour shaded by `rand(-40, 40)` percent. */
  function PrimaryColor(color: string, d: SparkDraw): (c: string)
    requires Colors.IsHexToken(color) && ValidSparkDraw(d)
    ensures Colors.IsHexToken(c)
  {
    var p := Rand(-40.0, 40.0, d.uShade);
    Colors.TokenParses(color);
    Colors.ShadeColor(color, p).value
  }

  /**
   * The spark the primary batch creates from draw `d`: at the burst origin, full
   * alpha, no trail, its life as its maximum life, and a colour that is the burst
   * colour shaded by at most 40 percent.
   */
  function PrimarySpark(x: real, y: real, color: string, size: SizeClass, spread: real, speedBase: real,
                        d: SparkDraw): (s: SparkState)
    requires Colors.IsHexToken(color) && ValidSparkDraw(d)
    ensures SparkInv(s)
    ensures s.x == x && s.y == y && s.alpha == 1.0 && s.life == s.maxLife && s.trail == [] && s.flicker
    ensures s.life == PrimaryLife(size, d) && s.size == PrimarySize(size, d)
    ensures s.color == PrimaryColor(color, d)
  {
    IgniteInv(x, y, PrimaryColor(color, d), PrimarySpeed(spread, speedBase, d), d.dirX, d.dirY,
              PrimaryLife(size, d), PrimarySize(size, d), true);
    Ignite(x, y, PrimaryColor(color, d), PrimarySpeed(spread, speedBase, d), d.dirX, d.dirY,
           PrimaryLife(size, d), PrimarySize(size, d), true)
  }

  /** The jittered origin, colour, speed, life and size of a secondary-burst spark. */
  function CrackleX(x: real, d: CrackleSparkDraw): (r: real)
    requires ValidCrackleSparkDraw(d)
    ensures x - 10.0 <= r <= x + 10.0
  {
    x + Rand(-10.0, 10.0, d.uJitterX)
  }

  function CrackleY(y: real, d: CrackleSparkDraw): (r: real)
    requires ValidCrackleSparkDraw(d)
    ensures y - 10.0 <= r <= y + 10.0
  {
    y + Rand(-10.0, 10.0, d.uJitterY)
  }

  function CrackleLife(d: CrackleSparkDraw): (r: real)
    requires ValidCrackleSparkDraw(d)
    ensures 30.0 <= r <= 70.0 && r == r.Floor as real
  {
    RandInt(30, 70, d.uLife) as real
  }

  /**
   * The spark the secondary burst creates from draw `d`: within 10 of the origin,
   * a palette colour, speed in [1.2, 3.0], life `randInt(30, 70)`, size in [0.8, 1.8].
   */
  function CrackleSpark(x: real, y: real, d: CrackleSparkDraw): (s: SparkState)
    requires ValidCrackleSparkDraw(d)
    ensures SparkInv(s)
    ensures x - 10.0 <= s.x <= x + 10.0 && y - 10.0 <= s.y <= y + 10.0
    ensures s.color in Colors.Palette
    ensures 30.0 <= s.life <= 70.0 && s.life == s.maxLife && s.alpha == 1.0 && s.trail == []
    ensures 0.8 <= s.size <= 1.8
  {
    IgniteInv(CrackleX(x, d), CrackleY(y, d), Colors.RandomColor(d.uColor), Rand(1.2, 3.0, d.uSpeed),
              d.dirX, d.dirY, CrackleLife(d), Rand(0.8, 1.8, d.uSize), true);
    Ignite(CrackleX(x, d), CrackleY(y, d), Colors.RandomColor(d.uColor), Rand(1.2, 3.0, d.uSpeed),
           d.dirX, d.dirY, CrackleLife(d), Rand(0.8, 1.8, d.uSize), true)
  }

  // ---------------------------------------------------------------------------
  // Stars (script.js lines 219-244)

  datatype Star = Star(x: real, y: real, r: real, alpha: real, flick: real, phase: real)

  /** `Math.floor((cw * ch) / 90000)`: one star per 90000 square units. */
  function StarCount(cw: real, ch: real): (n: int)
    ensures n as real * 90000.0 <= cw * ch < (n + 1) as real * 90000.0
  {
    ((cw * ch) / 90000.0).Floor
  }

  /** Doubling both sides of the surface multiplies the star count by four, up to rounding. */
  lemma StarCountScales(cw: real, ch: real)
    ensures 4 * StarCount(cw, ch) <= StarCount(2.0 * cw, 2.0 * ch) <= 4 * StarCount(cw, ch) + 3
  {
    var a := cw * ch;
    assert (2.0 * cw) * (2.0 * ch) == 4.0 * a;
    var n := StarCount(cw, ch);
    var m := StarCount(2.0 * cw, 2.0 * ch);
    assert m as real * 90000.0 <= 4.0 * a < (m + 1) as real * 90000.0;
  }

  /** One star of `buildStars`. */
  function NewStar(cw: real, ch: real, d: StarDraw): (s: Star)
    requires ValidStarDraw(d)
    ensures 0.0 <= cw ==> 0.0 <= s.x <= cw
    ensures 0.0 <= ch ==> 0.0 <= s.y <= ch * 0.6
    ensures 0.3 <= s.r < 1.6 && 0.02 <= s.alpha < 0.14 && 0.001 <= s.flick < 0.007
    ensures 0.0 <= s.phase < 1000.0
  {
    Star(Rand(0.0, cw, d.uX), Rand(0.0, ch * 0.6, d.uY), Rand(0.3, 1.6, d.uR),
         Rand(0.02, 0.14, d.uAlpha), Rand(0.001, 0.007, d.uFlick), d.uPhase * 1000.0)
  }

  /** The phase advance `drawStars` applies to every star each frame. */
  function Twinkled(s: Star): Star
  {
    s.(phase := s.phase + s.flick)
  }

  // ---------------------------------------------------------------------------
  // Batches: the states of the sparks one call creates, in creation order

  /** Every spark of ss satisfies the spark invariant. */
  ghost predicate AllSparkInv(ss: seq<SparkState>)
  {
    forall k :: 0 <= k < |ss| ==> SparkInv(ss[k])
  }

  /** The first n sparks of the primary batch of one `explode` call, one per draw. */
  function PrimaryBatch(x: real, y: real, color: string, size: SizeClass, spread: real, speedBase: real,
                        ds: seq<SparkDraw>, n: nat): (b: seq<SparkState>)
    requires Colors.IsHexToken(color)
    requires n <= |ds| && forall i :: 0 <= i < |ds| ==> ValidSparkDraw(ds[i])
    ensures |b| == n
  {
    if n == 0 then []
    else PrimaryBatch(x, y, color, size, spread, speedBase, ds, n - 1)
         + [PrimarySpark(x, y, color, size, spread, speedBase, ds[n - 1])]
  }

  lemma {:induction false} PrimaryBatchAt(x: real, y: real, color: string, size: SizeClass, spread: real,
                                          speedBase: real, ds: seq<SparkDraw>, n: nat, k: int)
    requires Colors.IsHexToken(color)
    requires n <= |ds| && forall i :: 0 <= i < |ds| ==> ValidSparkDraw(ds[i])
    requires 0 <= k < n
    ensures PrimaryBatch(x, y, color, size, spread, speedBase, ds, n)[k]
         == PrimarySpark(x, y, color, size, spread, speedBase, ds[k])
  {
    if k < n - 1 {
      PrimaryBatchAt(x, y, color, size, spread, speedBase, ds, n - 1, k);
    }
  }

  /**
   * Every spark of a primary batch starts at the burst origin with full alpha,
   * its whole life ahead and no trail, and satisfies the spark invariant.
   */
  lemma PrimaryBatchShape(x: real, y: real, color: string, size: SizeClass, spread: real, speedBase: real,
                          ds: seq<SparkDraw>, n: nat, k: int)
    requires Colors.IsHexToken(color)
    requires n <= |ds| && forall i :: 0 <= i < |ds| ==> ValidSparkDraw(ds[i])
    requires 0 <= k < n
    ensures var s := PrimaryBatch(x, y, color, size, spread, speedBase, ds, n)[k];
      && s.x == x && s.y == y && s.alpha == 1.0 && s.life == s.maxLife && s.trail == []
      && SparkInv(s) && Colors.IsHexToken(s.color)
      && (size == Normal ==> 40.0 <= s.life <= 110.0)
      && (size == Big ==> 48.0 <= s.life <= 132.0)
  {
    PrimaryBatchAt(x, y, color, size, spread, speedBase, ds, n, k);
  }

  /** One more spark of the primary batch, appended after any prefix. */
  lemma PrimaryBatchStep(x: real, y: real, color: string, size: SizeClass, spread: real, speedBase: real,
                         ds: seq<SparkDraw>, n: nat, pre: seq<SparkState>, before: seq<SparkState>,
                         after: seq<SparkState>)
    requires Colors.IsHexToken(color)
    requires n < |ds| && forall i :: 0 <= i < |ds| ==> ValidSparkDraw(ds[i])
    requires before == pre + PrimaryBatch(x, y, color, size, spread, speedBase, ds, n)
    requires after == before + [PrimarySpark(x, y, color, size, spread, speedBase, ds[n])]
    ensures after == pre + PrimaryBatch(x, y, color, size, spread, speedBase, ds, n + 1)
  {
    Assoc(pre, PrimaryBatch(x, y, color, size, spread, speedBase, ds, n),
          [PrimarySpark(x, y, color, size, spread, speedBase, ds[n])]);
  }

  lemma PrimaryBatchInv(x: real, y: real, color: string, size: SizeClass, spread: real, speedBase: real,
                        ds: seq<SparkDraw>, n: nat)
    requires Colors.IsHexToken(color)
    requires n <= |ds| && forall i :: 0 <= i < |ds| ==> ValidSparkDraw(ds[i])
    ensures AllSparkInv(PrimaryBatch(x, y, color, size, spread, speedBase, ds, n))
  {
    forall k | 0 <= k < n
      ensures SparkInv(PrimaryBatch(x, y, color, size, spread, speedBase, ds, n)[k])
    {
      PrimaryBatchAt(x, y, color, size, spread, speedBase, ds, n, k);
    }
  }

  /** The first n sparks of the secondary batch, one per draw. */
  function CrackleBatch(x: real, y: real, ds: seq<CrackleSparkDraw>, n: nat): (b: seq<SparkState>)
    requires n <= |ds| && forall i :: 0 <= i < |ds| ==> ValidCrackleSparkDraw(ds[i])
    ensures |b| == n
  {
    if n == 0 then [] else CrackleBatch(x, y, ds, n - 1) + [CrackleSpark(x, y, ds[n - 1])]
  }

  lemma {:induction false} CrackleBatchAt(x: real, y: real, ds: seq<CrackleSparkDraw>, n: nat, k: int)
    requires n <= |ds| && forall i :: 0 <= i < |ds| ==> ValidCrackleSparkDraw(ds[i])
    requires 0 <= k < n
    ensures CrackleBatch(x, y, ds, n)[k] == CrackleSpark(x, y, ds[k])
  {
    if k < n - 1 {
      CrackleBatchAt(x, y, ds, n - 1, k);
    }
  }


  lemma CrackleBatchInv(x: real, y: real, ds: seq<CrackleSparkDraw>, n: nat)
    requires n <= |ds| && forall i :: 0 <= i < |ds| ==> ValidCrackleSparkDraw(ds[i])
    ensures AllSparkInv(CrackleBatch(x, y, ds, n))
  {
    forall k | 0 <= k < n
      ensures SparkInv(CrackleBatch(x, y, ds, n)[k])
    {
      CrackleBatchAt(x, y, ds, n, k);
    }
  }

  /**
   * Every spark of a secondary burst lies within 10 of the burst origin, has a
   * palette colour, full alpha, no trail and a life of 30 to 70 ticks.
   */
  lemma CrackleBatchShape(x: real, y: real, ds: seq<CrackleSparkDraw>, n: nat, k: int)
    requires n <= |ds| && forall i :: 0 <= i < |ds| ==> ValidCrackleSparkDraw(ds[i])
    requires 0 <= k < n
    ensures var s := CrackleBatch(x, y, ds, n)[k];
      && x - 10.0 <= s.x <= x + 10.0 && y - 10.0 <= s.y <= y + 10.0
      && s.color in Colors.Palette && s.alpha == 1.0 && s.trail == []
      && 30.0 <= s.life <= 70.0 && s.life == s.maxLife
  {
    CrackleBatchAt(x, y, ds, n, k);
  }

  // ---------------------------------------------------------------------------
  // One `explode` call (script.js lines 133-161)

  /** The sparks `explode(x, y, baseColor, size)` appends, in creation order. */
  function Blast(x: real, y: real, baseColor: string, size: SizeClass, d: BurstDraw): (b: seq<SparkState>)
    requires ValidBurstDraw(d)
    requires baseColor == [] || Colors.IsHexToken(baseColor)
    ensures |b| <= ParticleCount && AllSparkInv(b)
  {
    var color := BurstColor(baseColor, d.uColor);
    var n := BatchSize(size, d.uCount);
    PrimaryBatchInv(x, y, color, size, Spread(size, d.uSpread), SpeedBase(size, d.uSpeedBase), d.sparks, n);
    PrimaryBatch(x, y, color, size, Spread(size, d.uSpread), SpeedBase(size, d.uSpeedBase), d.sparks, n)
  }

  /** `explode` makes exactly 180 sparks for a big burst and 30 to 80 otherwise. */
  lemma BlastSize(x: real, y: real, baseColor: string, size: SizeClass, d: BurstDraw)
    requires ValidBurstDraw(d)
    requires baseColor == [] || Colors.IsHexToken(baseColor)
    ensures size == Big ==> |Blast(x, y, baseColor, size, d)| == ParticleCount
    ensures size == Normal ==> 30 <= |Blast(x, y, baseColor, size, d)| <= 80
  {
  }

  /**
   * Each spark of an explosion starts at the burst origin with full alpha, its whole life ahead and no trail, and
   * its colour is the burst colour shaded by its own draw in [-40, 40] percent.
   */
  lemma BlastShape(x: real, y: real, baseColor: string, size: SizeClass, d: BurstDraw, k: int)
    requires ValidBurstDraw(d)
    requires baseColor == [] || Colors.IsHexToken(baseColor)
    requires 0 <= k < |Blast(x, y, baseColor, size, d)|
    ensures var s := Blast(x, y, baseColor, size, d)[k];
      && s.x == x && s.y == y && s.alpha == 1.0 && s.life == s.maxLife && s.trail == []
      && -40.0 <= Rand(-40.0, 40.0, d.sparks[k].uShade) <= 40.0
      && s.color == Colors.ShadeColor(BurstColor(baseColor, d.uColor), Rand(-40.0, 40.0, d.sparks[k].uShade)).value
      && (baseColor != [] ==> BurstColor(baseColor, d.uColor) == baseColor)
  {
    var color := BurstColor(baseColor, d.uColor);
    PrimaryBatchAt(x, y, color, size, Spread(size, d.uSpread), SpeedBase(size, d.uSpeedBase),
                   d.sparks, BatchSize(size, d.uCount), k);
  }

  /**
   * The timers one detonation sets: the secondary burst `randInt(150, 350)` ms
   * after a big explosion, then `revealTitle(color)` 40 ms after the central
   * rocket's.
   */
  function Fired(b: Burst, central: bool, d: BurstDraw): (ts: seq<Timer>)
    requires ValidBurstDraw(d)
    ensures |ts| <= 2
    ensures forall k :: 0 <= k < |ts| ==>
      || (ts[k].Crackle? && b.size == Big && 150 <= ts[k].delay <= 350)
      || (ts[k] == Reveal(b.color, 40) && central)
  {
    (if b.size == Big then [Crackle(b.x, b.y, RandInt(150, 350, d.uDelay))] else [])
    + (if central then [Reveal(b.color, 40)] else [])
  }

  // ---------------------------------------------------------------------------
  // The rocket pass of `loop` (script.js lines 205-208)

  /** A rocket in the world: a bounded trail, a hex colour `explode` can shade, not yet exploded. */
  predicate RocketOk(s: RocketState)
  {
    |s.trail| <= RocketTrailCap && Colors.IsHexToken(s.color) && !s.exploded
  }

  predicate AllRocketsOk(rs: seq<RocketState>)
  {
    forall k :: 0 <= k < |rs| ==> RocketOk(rs[k])
  }

  /** The sparks the update of rocket s creates: the primary batch of its detonation, if any. */
  function BornOf(s: RocketState, d: BurstDraw): (b: seq<SparkState>)
    requires RocketOk(s) && ValidBurstDraw(d)
    ensures |b| <= ParticleCount && AllSparkInv(b)
  {
    StepMotion(s);
    match Detonation(RocketStep(s))
    case None => []
    case Some(e) => Blast(e.x, e.y, e.color, e.size, d)
  }

  /** The timers the update of rocket s sets. */
  function FiredOf(s: RocketState, d: BurstDraw): (ts: seq<Timer>)
    requires ValidBurstDraw(d)
    ensures |ts| <= 2
    ensures !s.isCentral ==> ts == []
  {
    match Detonation(RocketStep(s))
    case None => []
    case Some(e) => Fired(e, s.isCentral, d)
  }

  /**
   * The sparks the rocket pass creates while it updates rockets i.. of rs. The
   * pass runs from the last rocket down, so a later rocket's batch comes first.
   */
  function Born(rs: seq<RocketState>, ds: seq<BurstDraw>, i: nat): (b: seq<SparkState>)
    requires i <= |rs| <= |ds| && AllRocketsOk(rs) && AllBurstDraws(ds)
    ensures |b| <= 180 * (|rs| - i) && AllSparkInv(b)
    decreases |rs| - i
  {
    if i == |rs| then [] else Born(rs, ds, i + 1) + BornOf(rs[i], ds[i])
  }

  /** The timers the rocket pass sets while it updates rockets i.. of rs, in the order it sets them. */
  function FiredFrom(rs: seq<RocketState>, ds: seq<BurstDraw>, i: nat): (ts: seq<Timer>)
    requires i <= |rs| <= |ds| && AllBurstDraws(ds)
    ensures |ts| <= 2 * (|rs| - i)
    ensures forall k :: 0 <= k < |ts| ==> 40 <= ts[k].delay <= 350
    decreases |rs| - i
  {
    if i == |rs| then [] else FiredFrom(rs, ds, i + 1) + FiredOf(rs[i], ds[i])
  }

  /** Every rocket of rs[i..] after one update. */
  function StepAll(rs: seq<RocketState>, i: nat): (ts: seq<RocketState>)
    requires i <= |rs|
    ensures |ts| == |rs| - i
    decreases |rs| - i
  {
    if i == |rs| then [] else [RocketStep(rs[i])] + StepAll(rs, i + 1)
  }

  /** The rockets of ts that have not exploded, in their order. */
  function Unexploded(ts: seq<RocketState>): (kept: seq<RocketState>)
    ensures |kept| <= |ts|
  {
    if ts == [] then [] else (if ts[0].exploded then [] else [ts[0]]) + Unexploded(ts[1..])
  }

  lemma UnexplodedCons(t: RocketState, ts: seq<RocketState>)
    ensures Unexploded([t] + ts) == (if t.exploded then [] else [t]) + Unexploded(ts)
  {
    assert ([t] + ts)[1..] == ts;
  }

  /** Unexploded keeps exactly the rockets that have not exploded. */
  lemma {:induction false} UnexplodedMembers(ts: seq<RocketState>, t: RocketState)
    ensures t in Unexploded(ts) <==> t in ts && !t.exploded
  {
    if ts != [] {
      UnexplodedMembers(ts[1..], t);
      assert ts == [ts[0]] + ts[1..];
    }
  }

  lemma {:induction false} StepAllAt(rs: seq<RocketState>, i: nat, k: int)
    requires i <= k < |rs|
    ensures StepAll(rs, i)[k - i] == RocketStep(rs[k])
    decreases |rs| - i
  {
    if i < k {
      StepAllAt(rs, i + 1, k);
    }
  }

  /**
   * After the rocket pass a rocket of the array is the update of one of the
   * old rockets and has not exploded; the update of an old rocket stays
   * exactly when it has not exploded.
   */
  lemma RocketPassMembers(rs: seq<RocketState>, t: RocketState)
    ensures t in Unexploded(StepAll(rs, 0)) <==> !t.exploded && exists k :: 0 <= k < |rs| && t == RocketStep(rs[k])
  {
    UnexplodedMembers(StepAll(rs, 0), t);
    if t in StepAll(rs, 0) {
      var j :| 0 <= j < |StepAll(rs, 0)| && StepAll(rs, 0)[j] == t;
      StepAllAt(rs, 0, j);
    }
    if k :| 0 <= k < |rs| && t == RocketStep(rs[k]) {
      StepAllAt(rs, 0, k);
    }
  }

  /** The rockets left by the pass are again well formed: an update keeps the trail bounded and the colour. */
  lemma {:induction false} RocketPassOk(rs: seq<RocketState>, i: nat)
    requires i <= |rs| && AllRocketsOk(rs)
    ensures AllRocketsOk(Unexploded(StepAll(rs, i)))
    decreases |rs| - i
  {
    if i < |rs| {
      RocketPassOk(rs, i + 1);
      var t := RocketStep(rs[i]);
      Rockets.StepTrail(rs[i]);
      StepMotion(rs[i]);
      UnexplodedCons(t, StepAll(rs, i + 1));
    }
  }

  /**
   * What one rocket's update adds: nothing unless it detonates; a detonating
   * background rocket adds 30 to 80 sparks and no timer; the detonating central
   * rocket adds 180 sparks, a secondary burst 150 to 350 ms later and then the
   * title reveal 40 ms later.
   */
  lemma DetonationOutcome(s: RocketState, d: BurstDraw)
    requires RocketOk(s) && ValidBurstDraw(d)
    ensures var t := RocketStep(s);
      && (!Triggered(t) ==> BornOf(s, d) == [] && FiredOf(s, d) == [])
      && (Triggered(t) && !s.isCentral ==> 30 <= |BornOf(s, d)| <= 80 && FiredOf(s, d) == [])
      && (Triggered(t) && s.isCentral ==>
            && |BornOf(s, d)| == ParticleCount
            && FiredOf(s, d) == [Crackle(t.x, t.y, RandInt(150, 350, d.uDelay)), Reveal(s.color, 40)]
            && 150 <= RandInt(150, 350, d.uDelay) <= 350)
  {
    var t := RocketStep(s);
    StepMotion(s);
    if Triggered(t) {
      var e := Detonation(t).value;
      BlastSize(e.x, e.y, e.color, e.size, d);
    }
  }

  /** Only the central rocket sets timers: a pass over background rockets sets none. */
  lemma {:induction false} BackgroundPassSetsNoTimers(rs: seq<RocketState>, ds: seq<BurstDraw>, i: nat)
    requires i <= |rs| <= |ds| && AllBurstDraws(ds)
    requires forall k :: 0 <= k < |rs| ==> !rs[k].isCentral
    ensures FiredFrom(rs, ds, i) == []
    decreases |rs| - i
  {
    if i < |rs| {
      BackgroundPassSetsNoTimers(rs, ds, i + 1);
      StepMotion(rs[i]);
    }
  }

  // ---------------------------------------------------------------------------
  // The spark pass of `loop` (script.js lines 209-212)

  /** The pass keeps a spark unless `life <= 0 || alpha <= 0.02 || y > ch + 50`. */
  predicate Stays(s: SparkState, ch: real)
  {
    s.life > 0.0 && s.alpha > 0.02 && s.y <= ch + 50.0
  }

  /** Every spark of ss[i..] after one update, with the draw of the same index. */
  function Stepped(ss: seq<SparkState>, fs: seq<Flick>, i: nat): (ts: seq<SparkState>)
    requires i <= |ss| <= |fs| && AllValid(fs) && AllSparkInv(ss)
    ensures |ts| == |ss| - i
    decreases |ss| - i
  {
    if i == |ss| then [] else [SparkStep(ss[i], fs[i])] + Stepped(ss, fs, i + 1)
  }

  /** The sparks of ts the pass keeps, in their order. */
  function Staying(ts: seq<SparkState>, ch: real): (kept: seq<SparkState>)
    ensures |kept| <= |ts|
  {
    if ts == [] then [] else (if Stays(ts[0], ch) then [ts[0]] else []) + Staying(ts[1..], ch)
  }

  lemma StayingCons(t: SparkState, ts: seq<SparkState>, ch: real)
    ensures Staying([t] + ts, ch) == (if Stays(t, ch) then [t] else []) + Staying(ts, ch)
  {
    assert ([t] + ts)[1..] == ts;
  }

  /** Staying keeps exactly the sparks that pass the test. */
  lemma {:induction false} StayingMembers(ts: seq<SparkState>, ch: real, t: SparkState)
    ensures t in Staying(ts, ch) <==> t in ts && Stays(t, ch)
  {
    if ts != [] {
      StayingMembers(ts[1..], ch, t);
      assert ts == [ts[0]] + ts[1..];
    }
  }

  lemma {:induction false} SteppedAt(ss: seq<SparkState>, fs: seq<Flick>, i: nat, k: int)
    requires i <= |ss| <= |fs| && AllValid(fs) && AllSparkInv(ss)
    requires i <= k < |ss|
    ensures Stepped(ss, fs, i)[k - i] == SparkStep(ss[k], fs[k])
    decreases |ss| - i
  {
    if i < k {
      SteppedAt(ss, fs, i + 1, k);
    }
  }

  /**
   * Every spark is updated once by the pass, and its update stays in the
   * array exactly when it passes the test.
   */
  lemma SparkPassKeeps(ss: seq<SparkState>, fs: seq<Flick>, ch: real, k: int)
    requires |ss| <= |fs| && AllValid(fs) && AllSparkInv(ss)
    requires 0 <= k < |ss|
    ensures SparkStep(ss[k], fs[k]) in Staying(Stepped(ss, fs, 0), ch) <==> Stays(SparkStep(ss[k], fs[k]), ch)
  {
    SteppedAt(ss, fs, 0, k);
    StayingMembers(Stepped(ss, fs, 0), ch, SparkStep(ss[k], fs[k]));
  }

  /** The sparks left by the pass satisfy the spark invariant again. */
  lemma {:induction false} SparkPassKeepsInv(ss: seq<SparkState>, fs: seq<Flick>, ch: real, i: nat)
    requires i <= |ss| <= |fs| && AllValid(fs) && AllSparkInv(ss)
    ensures AllSparkInv(Staying(Stepped(ss, fs, i), ch))
    decreases |ss| - i
  {
    if i < |ss| {
      SparkPassKeepsInv(ss, fs, ch, i + 1);
      StepKeepsInv(ss[i], fs[i]);
      StayingCons(SparkStep(ss[i], fs[i]), Stepped(ss, fs, i + 1), ch);
    }
  }

  /**
   * A spark the rocket pass created is updated by the spark pass of the same
   * frame: the j-th new spark, after its update, is kept exactly when it passes
   * the test.
   */
  lemma BornSparksUpdatedSameFrame(ss: seq<SparkState>, born: seq<SparkState>, fs: seq<Flick>, ch: real, j: int)
    requires |ss| + |born| <= |fs| && AllValid(fs) && AllSparkInv(ss) && AllSparkInv(born)
    requires 0 <= j < |born|
    ensures AllSparkInv(ss + born)
    ensures var p := SparkStep(born[j], fs[|ss| + j]);
      p in Staying(Stepped(ss + born, fs, 0), ch) <==> Stays(p, ch)
  {
    assert (ss + born)[|ss| + j] == born[j];
    SparkPassKeeps(ss + born, fs, ch, |ss| + j);
  }

  /**
   * The sparks after both passes of a frame: the old sparks followed by those
   * the rocket pass created, each updated once, the spent ones removed.
   */
  function PassedSparks(ss: seq<SparkState>, rs: seq<RocketState>, bursts: seq<BurstDraw>,
                        fs: seq<Flick>, ch: real): (r: seq<SparkState>)
    requires AllSparkInv(ss) && AllRocketsOk(rs) && AllBurstDraws(bursts) && |rs| <= |bursts|
    requires AllValid(fs) && |ss| + 180 * |rs| <= |fs|
    ensures |r| <= |ss| + 180 * |rs|
    ensures AllSparkInv(r)
  {
    var born := Born(rs, bursts, 0);
    assert AllSparkInv(ss + born);
    SparkPassKeepsInv(ss + born, fs, ch, 0);
    Staying(Stepped(ss + born, fs, 0), ch)
  }

  // ---------------------------------------------------------------------------
  // Launches (script.js lines 163-170 and 246-253)

  /** The rocket `spawnBackgroundFirework` pushes. */
  function Background(cw: real, ch: real, d: LaunchDraw): RocketState
    requires ValidLaunchDraw(cw, ch, d)
  {
    Launch(Rand(40.0, cw - 40.0, d.uSx), ch + 10.0, Rand(60.0, cw - 60.0, d.uTx), Rand(60.0, ch * 0.5, d.uTy),
           Colors.RandomColor(d.uColor), false, d.aim)
  }

  /**
   * A background rocket is not central, starts at y = ch + 10 with a palette
   * colour, and aims at a target inside the 60-unit margin of the upper half.
   */
  lemma BackgroundShape(cw: real, ch: real, d: LaunchDraw)
    requires ValidLaunchDraw(cw, ch, d)
    ensures var s := Background(cw, ch, d);
      && !s.isCentral && s.y == ch + 10.0 && s.life == 0 && s.color in Colors.Palette && RocketOk(s)
      && (120.0 <= cw ==> 60.0 <= s.tx <= cw - 60.0 && 40.0 <= s.x <= cw - 40.0)
      && (120.0 <= ch ==> 60.0 <= s.ty <= ch * 0.5 && d.aim.dirY < 0.0)
  {
    Colors.PaletteTokens();
    var s := Background(cw, ch, d);
    if 120.0 <= ch {
      HeadsUp(d.aim.dirX, d.aim.dirY, s.tx - s.x, s.ty - s.y);
    }
  }

  /** The rocket `launchCentral` pushes. */
  function Central(cw: real, ch: real, d: CentralDraw): RocketState
    requires ValidCentralDraw(cw, ch, d)
  {
    Launch(cw / 2.0 + Rand(-120.0, 120.0, d.uStart), ch + 20.0, cw / 2.0, ch / 2.0 - 40.0,
           Colors.RandomColor(d.uColor), true, d.aim)
  }

  /**
   * The central rocket starts at y = ch + 20 within 120 of the middle, aims at
   * the point 40 above the centre of the surface, and has a palette colour.
   */
  lemma CentralShape(cw: real, ch: real, d: CentralDraw)
    requires ValidCentralDraw(cw, ch, d)
    ensures var s := Central(cw, ch, d);
      && s.isCentral && s.y == ch + 20.0 && s.tx == cw / 2.0 && s.ty == ch / 2.0 - 40.0
      && cw / 2.0 - 120.0 <= s.x <= cw / 2.0 + 120.0
      && s.life == 0 && s.color in Colors.Palette && RocketOk(s)
    ensures 0.0 <= ch ==> d.aim.dirY < 0.0
    ensures 0.0 <= ch && d.uStart == 0.5 ==> d.aim.dirX == 0.0 && d.aim.dirY == -1.0
  {
    Colors.PaletteTokens();
    var s := Central(cw, ch, d);
    if 0.0 <= ch {
      HeadsUp(d.aim.dirX, d.aim.dirY, s.tx - s.x, s.ty - s.y);
    }
  }

  function Min(a: int, b: int): int { if a < b then a else b }

  /**
   * How many rockets a frame spawns: `randInt(1, min(maxBackgroundParticles, 3))`
   * when the density draw falls below backgroundDensity, none otherwise.
   */
  function SpawnCount(uSpawn: real, uCount: real): (n: nat)
    requires IsDraw(uSpawn) && IsDraw(uCount)
    ensures n <= 3
    ensures n >= 1 <==> uSpawn < BackgroundDensity
  {
    if uSpawn < BackgroundDensity then RandInt(1, Min(MaxBackgroundParticles, 3), uCount) else 0
  }

  /** The rockets n background spawns push, in order. */
  function Spawned(cw: real, ch: real, ls: seq<LaunchDraw>, n: nat): (r: seq<RocketState>)
    requires n <= |ls| && AllLaunchDraws(cw, ch, ls)
    ensures |r| == n
  {
    if n == 0 then [] else Spawned(cw, ch, ls, n - 1) + [Background(cw, ch, ls[n - 1])]
  }

  /** One more background launch, appended after any prefix. */
  lemma SpawnedStep(cw: real, ch: real, ls: seq<LaunchDraw>, n: nat, pre: seq<RocketState>,
                    before: seq<RocketState>, after: seq<RocketState>)
    requires n < |ls| && AllLaunchDraws(cw, ch, ls)
    requires before == pre + Spawned(cw, ch, ls, n)
    requires after == before + [Background(cw, ch, ls[n])]
    ensures after == pre + Spawned(cw, ch, ls, n + 1)
  {
    Assoc(pre, Spawned(cw, ch, ls, n), [Background(cw, ch, ls[n])]);
  }

  /** A spawning frame adds one to three rockets, none central, each starting at y = ch + 10. */
  lemma {:induction false} SpawnedShape(cw: real, ch: real, ls: seq<LaunchDraw>, n: nat, k: int)
    requires n <= |ls| && AllLaunchDraws(cw, ch, ls)
    requires 0 <= k < n
    ensures Spawned(cw, ch, ls, n)[k] == Background(cw, ch, ls[k])
    ensures !Spawned(cw, ch, ls, n)[k].isCentral && Spawned(cw, ch, ls, n)[k].y == ch + 10.0
  {
    BackgroundShape(cw, ch, ls[k]);
    if k < n - 1 {
      SpawnedShape(cw, ch, ls, n - 1, k);
    }
  }

  lemma AllRocketsOkConcat(a: seq<RocketState>, b: seq<RocketState>)
    requires AllRocketsOk(a) && AllRocketsOk(b)
    ensures AllRocketsOk(a + b)
  {
  }

  // ---------------------------------------------------------------------------
  // The starfield (script.js lines 219-244)

  /** The number of stars `buildStars` makes: its loop runs no time for a negative count. */
  function StarTotal(cw: real, ch: real): (n: nat)
    ensures 0.0 <= cw * ch ==> n == StarCount(cw, ch)
    ensures cw * ch < 0.0 ==> n == 0
  {
    if StarCount(cw, ch) < 0 then 0 else StarCount(cw, ch)
  }

  /** The first n stars of `buildStars`, one per draw. */
  function Starfield(cw: real, ch: real, ds: seq<StarDraw>, n: nat): (r: seq<Star>)
    requires n <= |ds| && AllStarDraws(ds)
    ensures |r| == n
  {
    if n == 0 then [] else Starfield(cw, ch, ds, n - 1) + [NewStar(cw, ch, ds[n - 1])]
  }

  /** Every star lies in the upper 60 percent of the surface. */
  lemma {:induction false} StarfieldInside(cw: real, ch: real, ds: seq<StarDraw>, n: nat, k: int)
    requires n <= |ds| && AllStarDraws(ds)
    requires 0.0 <= cw && 0.0 <= ch && 0 <= k < n
    ensures var s := Starfield(cw, ch, ds, n)[k];
      0.0 <= s.x <= cw && 0.0 <= s.y <= ch * 0.6 && 0.001 <= s.flick
  {
    if k < n - 1 {
      StarfieldInside(cw, ch, ds, n - 1, k);
    }
  }

  /** Every star after the phase advance of one `drawStars`. */
  function Twinkle(ss: seq<Star>): (r: seq<Star>)
    ensures |r| == |ss|
  {
    seq(|ss|, k requires 0 <= k < |ss| => Twinkled(ss[k]))
  }

  /** The starfield after one `drawStars`: built first when it is empty, then every phase advanced. */
  function Drawn(stars: seq<Star>, cw: real, ch: real, ds: seq<StarDraw>): (r: seq<Star>)
    requires stars == [] ==> |ds| >= StarTotal(cw, ch)
    requires AllStarDraws(ds)
    ensures stars != [] ==> |r| == |stars|
    ensures stars == [] ==> |r| == StarTotal(cw, ch)
  {
    Twinkle(if stars == [] then Starfield(cw, ch, ds, StarTotal(cw, ch)) else stars)
  }

  /**
   * A drawn star stays where it is with its size and brightness, and its phase
   * moves on by its flicker rate, which is positive for every star `buildStars` makes.
   */
  lemma TwinkleMovesPhaseOnly(ss: seq<Star>, k: int)
    requires 0 <= k < |ss|
    ensures |Twinkle(ss)| == |ss|
    ensures var s := Twinkle(ss)[k];
      && s.x == ss[k].x && s.y == ss[k].y && s.r == ss[k].r && s.alpha == ss[k].alpha
      && s.phase == ss[k].phase + ss[k].flick
      && (0.0 < ss[k].flick ==> s.phase > ss[k].phase)
  {
  }

  // ---------------------------------------------------------------------------
  // The world

  lemma Splice<T>(pre: seq<T>, x: T, rest: seq<T>, y: T)
    ensures var s := pre + [x] + rest;
      && s[|pre|] == x
      && s[..|pre|] + s[|pre| + 1..] == pre + rest
      && s[|pre| := y] == pre + ([y] + rest)
  {
    var s := pre + [x] + rest;
    assert s[..|pre|] == pre;
    assert s[|pre| + 1..] == rest;
    assert s[|pre| := y] == pre + ([y] + rest);
  }

  /** One step of the rocket pass on the array: the entry at i is the old rocket, replaced or removed. */
  lemma RocketSplice(orig: seq<RocketState>, i: nat, rs: seq<RocketState>)
    requires i < |orig| && rs == orig[..i + 1] + Unexploded(StepAll(orig, i + 1))
    ensures rs[i] == orig[i]
    ensures var r := RocketStep(orig[i]);
      && (r.exploded ==> rs[..i] + rs[i + 1..] == orig[..i] + Unexploded(StepAll(orig, i)))
      && (!r.exploded ==> rs[i := r] == orig[..i] + Unexploded(StepAll(orig, i)))
  {
    var r := RocketStep(orig[i]);
    var rest := Unexploded(StepAll(orig, i + 1));
    assert orig[..i + 1] == orig[..i] + [orig[i]];
    Splice(orig[..i], orig[i], rest, r);
    assert StepAll(orig, i) == [r] + StepAll(orig, i + 1);
    UnexplodedCons(r, StepAll(orig, i + 1));
  }

  /** One step of the spark pass on the array: the entry at i is the old spark, replaced or removed. */
  lemma SparkSplice(orig: seq<SparkState>, fs: seq<Flick>, ch: real, i: nat, ss: seq<SparkState>)
    requires i < |orig| <= |fs| && AllValid(fs) && AllSparkInv(orig)
    requires ss == orig[..i + 1] + Staying(Stepped(orig, fs, i + 1), ch)
    ensures ss[i] == orig[i]
    ensures var p := SparkStep(orig[i], fs[i]);
      && (!Stays(p, ch) ==> ss[..i] + ss[i + 1..] == orig[..i] + Staying(Stepped(orig, fs, i), ch))
      && (Stays(p, ch) ==> ss[i := p] == orig[..i] + Staying(Stepped(orig, fs, i), ch))
  {
    var p := SparkStep(orig[i], fs[i]);
    var rest := Staying(Stepped(orig, fs, i + 1), ch);
    assert orig[..i + 1] == orig[..i] + [orig[i]];
    Splice(orig[..i], orig[i], rest, p);
    assert Stepped(orig, fs, i) == [p] + Stepped(orig, fs, i + 1);
    StayingCons(p, Stepped(orig, fs, i + 1), ch);
  }

  /** One step of the rocket pass on the spark array: rocket i's batch follows the later rockets'. */
  lemma BornStep(pre: seq<SparkState>, rs: seq<RocketState>, ds: seq<BurstDraw>, i: nat)
    requires i < |rs| <= |ds| && AllRocketsOk(rs) && AllBurstDraws(ds)
    ensures pre + Born(rs, ds, i) == (pre + Born(rs, ds, i + 1)) + BornOf(rs[i], ds[i])
  {
    Assoc(pre, Born(rs, ds, i + 1), BornOf(rs[i], ds[i]));
  }

  lemma Assoc<T>(a: seq<T>, b: seq<T>, c: seq<T>)
    ensures (a + b) + c == a + (b + c)
  {
  }

  class World {
    /** The drawing surface in CSS pixels, as `resize` sets it. */
    var cw: real
    var ch: real
    var rockets: seq<RocketState>
    var sparks: seq<SparkState>
    /** `starPositions`. */
    var stars: seq<Star>
    /** The timestamp of the last frame. */
    var lastTime: real

    ghost predicate Valid()
      reads this
    {
      AllRocketsOk(rockets) && AllSparkInv(sparks)
    }

    /** The state after start-up `resize()`: no rockets, sparks or stars, `lastTime = 0`. */
    constructor (width: real, height: real)
      ensures Valid()
      ensures cw == width && ch == height
      ensures rockets == [] && sparks == [] && stars == [] && lastTime == 0.0
    {
      cw, ch := width, height;
      rockets, sparks, stars := [], [], [];
      lastTime := 0.0;
    }

    /**
     * `explode(x, y, baseColor, size)`: appends the primary batch and returns
     * the delayed secondary burst a big explosion schedules.
     */
    method Explode(x: real, y: real, baseColor: string, size: SizeClass, d: BurstDraw) returns (crackle: Option<Timer>)
      requires ValidBurstDraw(d)
      requires baseColor == [] || Colors.IsHexToken(baseColor)
      modifies this`sparks
      ensures sparks == old(sparks) + Blast(x, y, baseColor, size, d)
      ensures crackle == (if size == Big then Some(Crackle(x, y, RandInt(150, 350, d.uDelay))) else None)
    {
      var color := BurstColor(baseColor, d.uColor);
      var count := BatchSize(size, d.uCount);
      var spread := Spread(size, d.uSpread);
      var speedBase := SpeedBase(size, d.uSpeedBase);
      AddPrimaryBatch(x, y, color, size, spread, speedBase, d.sparks, count);
      if size == Big {
        crackle := Some(Crackle(x, y, RandInt(150, 350, d.uDelay)));
      } else {
        crackle := None;
      }
    }

    /** The loop of `explode`: n sparks, one per draw. */
    method AddPrimaryBatch(x: real, y: real, color: string, size: SizeClass, spread: real, speedBase: real,
                           ds: seq<SparkDraw>, n: nat)
      requires Colors.IsHexToken(color)
      requires n <= |ds| && forall i :: 0 <= i < |ds| ==> ValidSparkDraw(ds[i])
      modifies this`sparks
      ensures sparks == old(sparks) + PrimaryBatch(x, y, color, size, spread, speedBase, ds, n)
    {
      var i := 0;
      while i < n
        invariant 0 <= i <= n
        invariant sparks == old(sparks) + PrimaryBatch(x, y, color, size, spread, speedBase, ds, i)
      {
        AddPrimarySpark(x, y, color, size, spread, speedBase, ds, i, old(sparks));
        i := i + 1;
      }
    }

    /** One pass of the loop of `explode`: spark i, with its own speed, life, size and shade. */
    method AddPrimarySpark(x: real, y: real, color: string, size: SizeClass, spread: real, speedBase: real,
                           ds: seq<SparkDraw>, i: nat, ghost pre: seq<SparkState>)
      requires Colors.IsHexToken(color)
      requires i < |ds| && forall k :: 0 <= k < |ds| ==> ValidSparkDraw(ds[k])
      requires sparks == pre + PrimaryBatch(x, y, color, size, spread, speedBase, ds, i)
      modifies this`sparks
      ensures sparks == pre + PrimaryBatch(x, y, color, size, spread, speedBase, ds, i + 1)
    {
      var sd := ds[i];
      var speed := PrimarySpeed(spread, speedBase, sd);
      var life := PrimaryLife(size, sd);
      var sz := PrimarySize(size, sd);
      var col := PrimaryColor(color, sd);
      ghost var before := sparks;
      sparks := sparks + [Ignite(x, y, col, speed, sd.dirX, sd.dirY, life, sz, true)];
      PrimaryBatchStep(x, y, color, size, spread, speedBase, ds, i, pre, before, sparks);
    }

    /** The secondary burst a big explosion schedules: `randInt(10, 22)` more sparks. */
    method SecondaryBurst(x: real, y: real, d: CrackleDraw)
      requires Valid() && ValidCrackleDraw(d)
      modifies this`sparks
      ensures Valid()
      ensures sparks == old(sparks) + CrackleBatch(x, y, d.sparks, RandInt(10, 22, d.uCount))
    {
      var count := RandInt(10, 22, d.uCount);
      var j := 0;
      while j < count
        invariant 0 <= j <= count
        invariant sparks == old(sparks) + CrackleBatch(x, y, d.sparks, j)
      {
        var sd := d.sparks[j];
        sparks := sparks + [Ignite(CrackleX(x, sd), CrackleY(y, sd), Colors.RandomColor(sd.uColor),
                                   Rand(1.2, 3.0, sd.uSpeed), sd.dirX, sd.dirY, CrackleLife(sd),
                                   Rand(0.8, 1.8, sd.uSize), true)];
        j := j + 1;
      }
      CrackleBatchInv(x, y, d.sparks, count);
    }

    /**
     * The rocket pass of `loop`: from the last rocket down, update it, let a
     * detonation explode and set its timers, and remove the rocket once it
     * has exploded.
     */
    method UpdateRockets(bursts: seq<BurstDraw>) returns (timers: seq<Timer>)
      requires Valid() && |bursts| >= |rockets| && AllBurstDraws(bursts)
      modifies this`rockets, this`sparks
      ensures Valid()
      ensures rockets == Unexploded(StepAll(old(rockets), 0))
      ensures sparks == old(sparks) + Born(old(rockets), bursts, 0)
      ensures timers == FiredFrom(old(rockets), bursts, 0)
    {
      ghost var orig := rockets;
      timers := [];
      var i := |rockets|;
      while i > 0
        invariant 0 <= i <= |orig| && AllRocketsOk(orig)
        invariant rockets == orig[..i] + Unexploded(StepAll(orig, i))
        invariant sparks == old(sparks) + Born(orig, bursts, i)
        invariant timers == FiredFrom(orig, bursts, i)
      {
        i := i - 1;
        RocketSplice(orig, i, rockets);
        var r := RocketStep(rockets[i]);
        var fired := Detonate(r, bursts[i], orig[i]);
        BornStep(old(sparks), orig, bursts, i);
        if r.exploded {
          rockets := rockets[..i] + rockets[i + 1..];
        } else {
          rockets := rockets[i := r];
        }
        timers := timers + fired;
      }
      assert orig[..0] == [];
      RocketPassOk(orig, 0);
    }

    /**
     * The detonation inside `update()` of a rocket whose update is r: when it
     * fires, `explode` with the rocket's position and colour (big for the
     * central rocket), then the title reveal of the central rocket.
     */
    method Detonate(r: RocketState, d: BurstDraw, ghost s: RocketState) returns (fired: seq<Timer>)
      requires r == RocketStep(s) && RocketOk(s) && ValidBurstDraw(d)
      modifies this`sparks
      ensures sparks == old(sparks) + BornOf(s, d)
      ensures fired == FiredOf(s, d)
    {
      StepMotion(s);
      fired := [];
      var burst := Detonation(r);
      if burst.Some? {
        var crackle := Explode(burst.value.x, burst.value.y, burst.value.color, burst.value.size, d);
        if crackle.Some? {
          fired := [crackle.value];
        }
        if r.isCentral {
          fired := fired + [Reveal(r.color, 40)];
        }
      }
    }

    /**
     * The spark pass of `loop`: from the last spark down, update it and remove
     * it once `life <= 0 || alpha <= 0.02 || y > ch + 50`.
     */
    method UpdateSparks(flicks: seq<Flick>)
      requires Valid() && |flicks| >= |sparks| && AllValid(flicks)
      modifies this`sparks
      ensures Valid()
      ensures sparks == Staying(Stepped(old(sparks), flicks, 0), ch)
    {
      ghost var orig := sparks;
      var i := |sparks|;
      while i > 0
        invariant 0 <= i <= |orig| && AllSparkInv(orig)
        invariant sparks == orig[..i] + Staying(Stepped(orig, flicks, i), ch)
      {
        i := i - 1;
        SparkSplice(orig, flicks, ch, i, sparks);
        var p := SparkStep(sparks[i], flicks[i]);
        if p.life <= 0.0 || p.alpha <= 0.02 || p.y > ch + 50.0 {
          sparks := sparks[..i] + sparks[i + 1..];
        } else {
          sparks := sparks[i := p];
        }
      }
      assert orig[..0] == [];
      SparkPassKeepsInv(orig, flicks, ch, 0);
    }

    /** `spawnBackgroundFirework()`. */
    method SpawnBackground(d: LaunchDraw)
      requires Valid() && ValidLaunchDraw(cw, ch, d)
      modifies this`rockets
      ensures Valid()
      ensures rockets == old(rockets) + [Background(cw, ch, d)]
    {
      var margin := 60.0;
      var tx := Rand(margin, cw - margin, d.uTx);
      var ty := Rand(60.0, ch * 0.5, d.uTy);
      var sx := Rand(40.0, cw - 40.0, d.uSx);
      var sy := ch + 10.0;
      rockets := rockets + [Launch(sx, sy, tx, ty, Colors.RandomColor(d.uColor), false, d.aim)];
      BackgroundShape(cw, ch, d);
      AllRocketsOkConcat(old(rockets), [Background(cw, ch, d)]);
    }

    /** The spawn loop at the end of `loop`: `spawnBackgroundFirework()` n times. */
    method SpawnBackgrounds(n: nat, ls: seq<LaunchDraw>)
      requires Valid() && n <= |ls| && AllLaunchDraws(cw, ch, ls)
      modifies this`rockets
      ensures Valid()
      ensures rockets == old(rockets) + Spawned(cw, ch, ls, n)
    {
      var i := 0;
      while i < n
        invariant 0 <= i <= n
        invariant Valid()
        invariant rockets == old(rockets) + Spawned(cw, ch, ls, i)
      {
        ghost var before := rockets;
        SpawnBackground(ls[i]);
        SpawnedStep(cw, ch, ls, i, old(rockets), before, rockets);
        i := i + 1;
      }
    }

    /** `launchCentral()`. */
    method LaunchCentral(d: CentralDraw)
      requires Valid() && ValidCentralDraw(cw, ch, d)
      modifies this`rockets
      ensures Valid()
      ensures rockets == old(rockets) + [Central(cw, ch, d)]
    {
      var centerX := cw / 2.0;
      var centerY := ch / 2.0 - 40.0;
      var startX := cw / 2.0 + Rand(-120.0, 120.0, d.uStart);
      var startY := ch + 20.0;
      var color := Colors.RandomColor(d.uColor);
      rockets := rockets + [Launch(startX, startY, centerX, centerY, color, true, d.aim)];
      CentralShape(cw, ch, d);
      AllRocketsOkConcat(old(rockets), [Central(cw, ch, d)]);
    }

    /** `buildStars()`: one star per 90000 square units of the surface. */
    method BuildStars(ds: seq<StarDraw>)
      requires |ds| >= StarTotal(cw, ch) && AllStarDraws(ds)
      modifies this`stars
      ensures stars == Starfield(cw, ch, ds, StarTotal(cw, ch))
    {
      stars := [];
      var count := StarCount(cw, ch);
      var i := 0;
      while i < count
        invariant 0 <= i <= StarTotal(cw, ch)
        invariant stars == Starfield(cw, ch, ds, i)
      {
        var d := ds[i];
        stars := stars + [Star(Rand(0.0, cw, d.uX), Rand(0.0, ch * 0.6, d.uY), Rand(0.3, 1.6, d.uR),
                               Rand(0.02, 0.14, d.uAlpha), Rand(0.001, 0.007, d.uFlick), d.uPhase * 1000.0)];
        i := i + 1;
      }
    }

    /** The state changes of `drawStars()`: build the starfield when empty, then advance every phase. */
    method DrawStars(ds: seq<StarDraw>)
      requires stars == [] ==> |ds| >= StarTotal(cw, ch)
      requires AllStarDraws(ds)
      modifies this`stars
      ensures stars == Drawn(old(stars), cw, ch, ds)
    {
      if |stars| == 0 {
        BuildStars(ds);
      }
      ghost var base := stars;
      var i := 0;
      while i < |stars|
        invariant 0 <= i <= |stars| == |base|
        invariant forall k :: 0 <= k < i ==> stars[k] == Twinkled(base[k])
        invariant forall k :: i <= k < |stars| ==> stars[k] == base[k]
      {
        stars := stars[i := Twinkled(stars[i])];
        i := i + 1;
      }
      assert stars == Twinkle(base);
    }

    /** The end of `loop`: with probability BackgroundDensity, one to three background launches. */
    method SpawnRandom(uSpawn: real, uCount: real, ls: seq<LaunchDraw>)
      requires Valid() && IsDraw(uSpawn) && IsDraw(uCount)
      requires |ls| >= 3 && AllLaunchDraws(cw, ch, ls)
      modifies this`rockets
      ensures Valid()
      ensures rockets == old(rockets) + Spawned(cw, ch, ls, SpawnCount(uSpawn, uCount))
    {
      var spawnCount := 0;
      if uSpawn < BackgroundDensity {
        spawnCount := RandInt(1, Min(MaxBackgroundParticles, 3), uCount);
      }
      SpawnBackgrounds(spawnCount, ls);
    }

    /** The two passes of `loop`: the rocket pass, then the spark pass over old and newborn sparks. */
    method Passes(bursts: seq<BurstDraw>, flicks: seq<Flick>) returns (timers: seq<Timer>)
      requires Valid() && AllBurstDraws(bursts) && AllValid(flicks)
      requires |bursts| >= |rockets|
      requires |flicks| >= |sparks| + 180 * |rockets|
      modifies this`rockets, this`sparks
      ensures Valid()
      ensures rockets == Unexploded(StepAll(old(rockets), 0))
      ensures sparks == PassedSparks(old(sparks), old(rockets), bursts, flicks, ch)
      ensures timers == FiredFrom(old(rockets), bursts, 0)
    {
      ghost var rockets0, sparks0 := rockets, sparks;
      timers := UpdateRockets(bursts);
      ghost var afterRockets := sparks;
      assert afterRockets == sparks0 + Born(rockets0, bursts, 0);
      UpdateSparks(flicks);
    }

    /**
     * The part of `loop` after the stars: the rocket pass, the spark pass over
     * the old sparks and those the rocket pass created, then possibly the
     * spawn of background rockets. Returns the timers set.
     */
    method Animate(bursts: seq<BurstDraw>, flicks: seq<Flick>, uSpawn: real, uCount: real,
                   launches: seq<LaunchDraw>) returns (timers: seq<Timer>)
      requires Valid() && AllBurstDraws(bursts) && AllValid(flicks)
      requires IsDraw(uSpawn) && IsDraw(uCount) && AllLaunchDraws(cw, ch, launches)
      requires |bursts| >= |rockets| && |flicks| >= |sparks| + 180 * |rockets| && |launches| >= 3
      modifies this`rockets, this`sparks
      ensures Valid()
      ensures rockets == Unexploded(StepAll(old(rockets), 0)) + Spawned(cw, ch, launches, SpawnCount(uSpawn, uCount))
      ensures sparks == PassedSparks(old(sparks), old(rockets), bursts, flicks, ch)
      ensures timers == FiredFrom(old(rockets), bursts, 0)
    {
      timers := Passes(bursts, flicks);
      ghost var passed := sparks;
      SpawnRandom(uSpawn, uCount, launches);
      assert sparks == passed;
    }

    /** One frame `loop(t)`: record the time, advance the stars, then animate the fireworks. */
    method Frame(t: real, fd: FrameDraw) returns (timers: seq<Timer>)
      requires Valid() && ValidFrameDraw(cw, ch, fd)
      requires stars == [] ==> |fd.stars| >= StarTotal(cw, ch)
      requires |fd.bursts| >= |rockets|
      requires |fd.flicks| >= |sparks| + 180 * |rockets|
      requires |fd.launches| >= 3
      modifies this`lastTime, this`stars, this`rockets, this`sparks
      ensures Valid()
      ensures lastTime == t
      ensures stars == Drawn(old(stars), cw, ch, fd.stars)
      ensures rockets == Unexploded(StepAll(old(rockets), 0))
                         + Spawned(cw, ch, fd.launches, SpawnCount(fd.uSpawn, fd.uCount))
      ensures sparks == PassedSparks(old(sparks), old(rockets), fd.bursts, fd.flicks, ch)
      ensures timers == FiredFrom(old(rockets), fd.bursts, 0)
    {
      ghost var rockets0, sparks0 := rockets, sparks;
      lastTime := t;
      DrawStars(fd.stars);
      assert rockets == rockets0 && sparks == sparks0;
      ghost var drawn := stars;
      timers := Animate(fd.bursts, fd.flicks, fd.uSpawn, fd.uCount, fd.launches);
      assert stars == drawn;
    }
  }
}
