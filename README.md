# Fireworks core, modelled and verified in Dafny

`script.js` draws a canvas fireworks show. Under the drawing code is a small
simulation, and this project models it:

- **Rockets.** A rocket rises toward a target, keeps a bounded trail and
  detonates when it is near the target, too old or falling.
- **Sparks.** A detonation appends a batch of sparks to a global array. A
  spark fades, flickers and is removed once it is spent.
- **Frames.** Each animation frame updates the stars, the rockets and the
  sparks, and sometimes launches background rockets.
- **Colours.** `shadeColor` and `hexToRgba` share a small hex colour codec.

Every `Math.random()` call is a parameter `u` with `0 <= u < 1`, grouped
into draw records (`SparkDraw`, `BurstDraw`, `LaunchDraw`, `FrameDraw`, …).
JavaScript numbers that hold positions, speeds, sizes, alphas and other
measures are Dafny `real`s. Numbers the script only uses as whole values are
`int` or `nat`:

- colour channels (`Rgb`, `Rgba`), which `Math.round` makes whole;
- a trail point's `life` budget and the rocket age, which only count;
- timer delays in milliseconds (`Timer`);
- counts: `BatchSize`, `SpawnCount`, `StarCount`, the trail caps and the
  integer constants of `Tuning`.

Modules, one per file:

- `random.dfy` — `Random`: `rand` and `randInt`.
- `colors.dfy` — `Colors`: the hex parse shared by `shadeColor` and
  `hexToRgba`, `Math.round`, channel shading, and the `toString(16)` /
  `padStart` repacking. It also holds the palette of `randomColor`.
- `trails.dfy` — `Trails`: the `push` then `shift` trail, as a bounded
  first-in first-out queue.
- `rockets.dfy` — `Rockets`: the rocket state and one `update` as a
  function (`RocketStep`), plus the `Rocket` class whose `Update` changes
  its fields in place and is proved equal to `RocketStep`.
- `sparks.dfy` — `Sparks`: the same pattern for `Spark` (`SparkStep`,
  class `Spark`).
- `world.dfy` — `Fireworks`: the global arrays, `explode`, its delayed
  secondary burst, the two passes of `loop`, the background spawn,
  `launchCentral`, and `buildStars` / `drawStars`. All of these are
  imperative methods of class `World`, each proved against a specification
  function.
- `tuning.dfy` — `Tuning`: the script's constants.
- `optional.dfy` — `Optional`: the `Option` type.

The callbacks the script defers with `setTimeout` are returned as `Timer`
values:

- the secondary burst `randInt(150, 350)` ms after a big explosion;
- `revealTitle(color)` 40 ms after the central rocket detonates.

`World.SecondaryBurst` is that first callback.

Shading by `+p` and then by `-p` does not restore a channel.
`Colors.ShadeIsNotInvertible` shows that channel 0 becomes 128 after +50,
and then 64 after −50.

## Model

| member | source | states |
|---|---|---|
| Random.Rand | script.js:1 | for a draw u in [0,1), `rand(a, b)` lies in [a, b], below b when a < b, and equals a when a = b |
| Random.RandInt | script.js:2 | `randInt(a, b)` is an integer in [a, b] whenever a <= b |
| Random.RandIntReaches | script.js:2 | every integer k of [a, b] is drawn, by u = (k − a)/(b − a + 1) |
| Colors.HexValue | script.js:125-127 | a character has a radix-16 value exactly when it is 0-9, a-f or A-F, and that value is in [0, 16) |
| Colors.HexDigit | script.js:194 | the digit `toString(16)` writes is lower-case and parses back to the same value |
| Colors.FirstHash | script.js:184 | the position `replace('#', '')` matches: a '#' with no '#' before it |
| Colors.StripHash | script.js:184 | `replace('#', '')` removes exactly the first '#' (`s[..FirstHash(s)] + s[FirstHash(s) + 1..]`) and leaves a string without '#' unchanged |
| Colors.StripHashCons | script.js:184 | stripping a string whose first character is not '#' keeps that character in front of the stripped tail |
| Colors.Widen | script.js:185 | a three-character token becomes six, each character doubled in place; any other length is kept |
| Colors.PairValue | script.js:186-188 | two hex digits give a channel in [0, 255] |
| Colors.ParseRgb | script.js:184-188 | the parse succeeds exactly when six hex digits remain after stripping and widening, and then every channel is in [0, 255] |
| Colors.Round | script.js:191-193 | `Math.round(x)` is the integer n with n − 1/2 <= x < n + 1/2, so halves round up |
| Colors.Toward | script.js:191-193 | `Math.round((t − c)·p) + c` for p in [0, 1] lies between the channel c and its target t |
| Colors.ShadeChannel | script.js:189-193 | for a positive percent the channel moves up and stays <= 255; for a negative one it moves down and stays >= 0 |
| Colors.ShadeChannelByZero | script.js:189-193 | shading by 0 percent keeps a channel |
| Colors.Target | script.js:189 | the end a channel is shaded toward is a channel value, and it is 0 exactly when the percent is negative (255 otherwise) |
| Colors.Shade | script.js:191-193 | shading keeps all three channels in [0, 255] |
| Colors.ToHex | script.js:194 | `toString(16)` writes at least one digit, all lower-case hex |
| Colors.Zeros | script.js:194 | k '0' characters |
| Colors.PadStart | script.js:194 | `padStart(width, '0')` has length max(\|s\|, width), ends with s and is filled in front with '0' |
| Colors.PaddedHexIsFixed | script.js:194 | for n < 16^width, the padded `toString(16)` is exactly the width-digit spelling of n |
| Colors.Pack | script.js:194 | `#${(R<<16 \| G<<8 \| B).toString(16).padStart(6,'0')}` starts with '#' and has at least seven characters; `PackDigits`, `PackIsToken` and `PackParses` state its exact digits, its form and its round trip |
| Colors.PackDigits | script.js:194 | the packed token is '#' followed by the two digits of R, then of G, then of B |
| Colors.PackIsToken | script.js:194 | the packed token is '#' and six lower-case hex digits |
| Colors.PackParses | script.js:194 | parsing a packed colour gives back its three channels |
| Colors.ShadeColor | script.js:183-195 | `shadeColor` returns a value exactly when its input parses, and that value is '#' and six lower-case digits |
| Colors.HexToRgba | script.js:123-128 | the hex branch succeeds exactly when the token parses; it keeps alpha, with every channel in [0, 255] |
| Colors.ShadeRoundTrip | script.js:183-195 | the output of `shadeColor`, parsed again as `hexToRgba` does, gives exactly the shaded channels with the given alpha |
| Colors.ShadeByZero | script.js:189-194 | `shadeColor(c, 0)` parses to the channels of c |
| Colors.ShortTokenShadesAsWide | script.js:184-185 | for any three characters a, b, c, `shadeColor("#abc", p) == shadeColor("#aabbcc", p)` |
| Colors.ShadeIsNotInvertible | script.js:189-193 | brightening and then darkening by 50 percent takes channel 0 to 128 and then to 64, not back to 0 |
| Colors.RandomColor | script.js:172-175 | `randomColor()` is a palette entry |
| Colors.RandomColorReaches | script.js:172-175 | every palette entry can be drawn |
| Colors.TokenParses | script.js:184-188 | every '#rrggbb' token parses, to the channels its three digit pairs spell |
| Colors.ByteParses | script.js:194 | the two digits `toString(16).padStart(2, '0')` writes for a channel parse back to that channel |
| Colors.PaletteTokens | script.js:173 | every palette entry is a '#rrggbb' token |
| Colors.PaletteParses | script.js:173 | every palette entry parses |
| Trails.Pushed | script.js:49-50 | push then shift-when-over-cap: the length grows by one until the cap is reached, the result is the newest entries of q + [x], and a queue within the cap stays within it |
| Trails.PushedEnds | script.js:49-50 | the newest entry is the pushed one; a full queue loses exactly its oldest entry; a queue under the cap keeps all its entries in front |
| Trails.PushedFrom | script.js:97-98 | a property shared by the pushed entry and every old entry holds for every entry of the new queue |
| Rockets.Heads | script.js:36-39 | (dirX, dirY) is (cos θ, sin θ) for θ = atan2(dy, dx): the unit vector along the offset (dx, dy) from start to target, or (1, 0) when the offset is zero; `HeadsUp` states its consequence |
| Rockets.HeadsUp | script.js:36-39 | a target above the start gives an upward heading, and a target straight above gives the heading (0, −1) |
| Rockets.Launch | script.js:34-46 | for a heading that `Heads` ties to the target, the constructor sets position, target, colour and kind as given, with an empty trail, age 0 and not exploded; speed is in [5.5, 8.5] and velocity is heading × speed, jittered by at most 0.5 (x) and 1 (y) |
| Rockets.RocketStep | script.js:47-57 | an update ages the rocket by exactly one tick, keeps a trail within the cap of 12, and sets `exploded` exactly when it was already set or the moved rocket is near its target, older than 120 or falling faster than 3.5 |
| Rockets.StepTrail | script.js:49-50 | the newest trail point is the position before the move, with life 8, and the trail stays within 12 points |
| Rockets.StepMotion | script.js:51-53 | vx is damped by 0.999; target, colour and kind do not change |
| Rockets.Advance | script.js:48-53 | steps 1-5 of `update` add one to the age and leave the target, colour, kind and `exploded` alone; `StepTrail` and `StepMotion` state the trail and the motion |
| Rockets.Near | script.js:54-55 | `Math.sqrt(dx*dx + dy*dy) < 18`, as dx² + dy² < 324; it is one disjunct of `Triggered` |
| Rockets.Triggered | script.js:56 | the detonation test (near the target, older than 120 ticks, or falling faster than 3.5); `RocketStep` and `Detonation` state that it latches `exploded` and requests the explosion |
| Rockets.Detonation | script.js:56-58 | an updated rocket asks for `explode` exactly when the test fires, at its own position and colour, and big exactly when it is the central rocket |
| Rockets.RocketRun | script.js:47-57 | any number of updates keep the target, colour and kind; `RunLife`, `RunTrailBounded`, `RunKeepsExploded`, `ExplodesByAge` and `RunDampsVx` state the rest |
| Rockets.RunLife | script.js:48 | after n updates the age has grown by n |
| Rockets.RunTrailBounded | script.js:49-50 | after any number of updates the trail holds at most 12 points |
| Rockets.RunKeepsExploded | script.js:56-57 | once exploded, a rocket stays exploded |
| Rockets.ExplodesByAge | script.js:56 | any update that takes the age past 120 leaves the rocket exploded |
| Rockets.LaunchedRocketExplodes | script.js:34-57 | a newly launched rocket has exploded after 121 updates, whatever its path |
| Rockets.RunDampsVx | script.js:52 | after n updates vx is vx·0.999^n, and it keeps its sign |
| Rockets.Rocket.constructor | script.js:34-46 | `new Rocket(...)` builds the state `Launch` describes |
| Rockets.Rocket.Update | script.js:47-63 | `update()` changes the fields in place to `RocketStep` of the old state, keeps the trail bound, and returns the `explode` request of `Detonation` |
| Sparks.Ignite | script.js:87-95 | the constructor puts the spark at (x, y) with full alpha, life = maxLife, an empty trail, and the given colour, size and flicker |
| Sparks.Fade | script.js:101 | `Math.max(0, life/maxLife)` is >= 0, at most 1 while life <= maxLife, and 0 exactly when life <= 0 |
| Sparks.TrailLife | script.js:97 | a spark trail point's budget is at least 4 and at least `floor(maxLife/10)`, and equals one of them |
| Sparks.Flickered | script.js:102 | the flicker scales the fresh fade by a factor in [0.6, 1], and only when the spark flickers and the 6% draw fires |
| Sparks.SparkStep | script.js:96-103 | an update takes exactly 1 from life and keeps maxLife |
| Sparks.StepAlpha | script.js:101-102 | after an update alpha lies between 0.6 × the fade of the new life and that fade; without flicker it is the fade |
| Sparks.StepTrail | script.js:97-98 | the newest trail point is the position before the move, with its budget; the trail stays within 10 points |
| Sparks.SparkInv | script.js:86-103 | the invariant every spark keeps: maxLife > 0, life <= maxLife, alpha in [0, 1], at most 10 trail points, each with budget at least 4; `IgniteInv`, `StepKeepsInv` and `RunKeepsInv` establish and preserve it |
| Sparks.IgniteInv | script.js:87-95 | a spark created with positive life satisfies the spark invariant: alpha in [0, 1], life <= maxLife, at most 10 trail points, each with budget >= 4 |
| Sparks.StepKeepsInv | script.js:96-103 | an update keeps the spark invariant |
| Sparks.FlickerIsNotCumulative | script.js:101-102 | the alpha before an update does not influence the alpha after it |
| Sparks.SparkRun | script.js:96-103 | repeated updates keep maxLife |
| Sparks.RunLife | script.js:101 | after n updates life has dropped by exactly n |
| Sparks.RunKeepsInv | script.js:96-103 | after any number of updates the spark invariant still holds |
| Sparks.LifeRunsOut | script.js:101 | after as many updates as its life, a spark's life is <= 0 and its fade is 0 |
| Sparks.Spark.constructor | script.js:87-95 | `new Spark(...)`, with defaults size 2 and flicker on, builds the state `Ignite` describes and satisfies the invariant when life > 0 |
| Sparks.Spark.Update | script.js:96-103 | `update()` changes the fields in place to `SparkStep` of the old state and keeps the invariant |
| Fireworks.BurstColor | script.js:134 | `baseColor \|\| randomColor()`: the base colour when one is given, otherwise a palette entry; a '#rrggbb' token either way |
| Fireworks.BatchSize | script.js:140 | a big burst has 180 sparks, a normal one 30 to 80 |
| Fireworks.Spread | script.js:141 | the spread is in [0.9, 1.2] for a big burst and [0.6, 1.0] otherwise |
| Fireworks.SpeedBase | script.js:142 | the base speed is in [3.4, 6.2] for a big burst and [2.0, 4.6] otherwise |
| Fireworks.PrimarySpeed | script.js:145 | `Math.abs(randGaussian()*0.6 + 1) * speedBase * (0.6 + Math.random()*spread)` is never negative for a non-negative spread and base speed |
| Fireworks.PrimaryLife | script.js:146 | a primary spark lives 40 to 110 ticks, or 48 to 132 in a big burst |
| Fireworks.PrimarySize | script.js:147 | size is in [0.9, 2.2], or [1.6, 3.2] in a big burst |
| Fireworks.PrimaryColor | script.js:148 | the shaded burst colour is again a '#rrggbb' token |
| Fireworks.PrimarySpark | script.js:144-149 | a primary spark starts at the burst origin with full alpha, life = maxLife, no trail, flicker on, its own life, size and shaded colour, and satisfies the spark invariant |
| Fireworks.CrackleSpark | script.js:155-157 | a secondary spark starts within 10 of the origin with a palette colour, life 30 to 70 = maxLife, full alpha, no trail and size in [0.8, 1.8] |
| Fireworks.CrackleX | script.js:157 | a secondary spark starts within 10 of the burst's x |
| Fireworks.CrackleY | script.js:157 | a secondary spark starts within 10 of the burst's y |
| Fireworks.CrackleLife | script.js:157 | a secondary spark's life is a whole number of ticks in [30, 70] |
| Fireworks.StarCount | script.js:222 | `floor(cw·ch/90000)`: the count n satisfies 90000·n <= cw·ch < 90000·(n + 1) |
| Fireworks.StarCountScales | script.js:222 | doubling both sides multiplies the star count by 4, up to 3 more from rounding |
| Fireworks.StarTotal | script.js:222-223 | the number of stars `buildStars` makes: `StarCount` for a surface of non-negative area, and none otherwise, since the loop does not run for a negative count |
| Fireworks.NewStar | script.js:224-231 | a star lies in [0, cw] × [0, 0.6·ch], with radius, alpha, flicker rate and phase in their `rand` ranges |
| Fireworks.PrimaryBatch | script.js:143-150 | the loop of `explode` creates exactly n sparks |
| Fireworks.PrimaryBatchAt | script.js:143-150 | the k-th spark of the batch is made from the k-th draw |
| Fireworks.PrimaryBatchShape | script.js:143-150 | every spark of a primary batch starts at the origin with full alpha, life = maxLife, no trail, a hex colour, its life range and the spark invariant |
| Fireworks.PrimaryBatchInv | script.js:143-150 | every spark of a primary batch satisfies the spark invariant |
| Fireworks.CrackleBatch | script.js:153-158 | the secondary loop creates exactly n sparks |
| Fireworks.CrackleBatchAt | script.js:153-158 | its k-th spark is made from the k-th draw |
| Fireworks.CrackleBatchInv | script.js:153-158 | every secondary spark satisfies the spark invariant |
| Fireworks.CrackleBatchShape | script.js:153-158 | every secondary spark lies within 10 of the origin, with a palette colour, full alpha, no trail and life 30 to 70 |
| Fireworks.Blast | script.js:133-150 | `explode` appends at most 180 sparks, all satisfying the spark invariant |
| Fireworks.BlastShape | script.js:140-149 | a big explosion appends 180 sparks and a normal one 30 to 80; each is at the origin with full alpha, life = maxLife and no trail, and its colour is `shadeColor` of the burst colour by its own percent in [−40, 40] |
| Fireworks.BlastSize | script.js:140 | an explosion makes exactly 180 sparks when big and 30 to 80 otherwise |
| Fireworks.BornOf | script.js:56-58 | updating one rocket creates at most 180 sparks, all satisfying the spark invariant |
| Fireworks.Born | script.js:205-208 | the rocket pass over n rockets creates at most 180·n sparks, all satisfying the spark invariant |
| Fireworks.BornStep | script.js:205-208 | the sparks rocket i creates come after those of every later rocket, because the pass runs from the last rocket down |
| Fireworks.StepAll | script.js:205-206 | the pass yields exactly one updated rocket per rocket |
| Fireworks.Unexploded | script.js:207 | the removal never makes the array longer |
| Fireworks.UnexplodedMembers | script.js:207 | a rocket is kept exactly when it is in the array and has not exploded |
| Fireworks.StepAllAt | script.js:205-206 | entry k of the updated array is the update of rocket k |
| Fireworks.RocketPassMembers | script.js:205-208 | after the pass, a rocket is in the array exactly when it is the update of some old rocket and has not exploded |
| Fireworks.RocketPassOk | script.js:205-208 | the rockets left by the pass have a bounded trail, a hex colour and are not exploded |
| Fireworks.DetonationOutcome | script.js:56-61 | a rocket that does not fire adds nothing. A background rocket that fires adds 30 to 80 sparks and no timer. The central rocket adds 180 sparks, then a secondary burst after 150 to 350 ms, then the reveal after 40 ms |
| Fireworks.Fired | script.js:58-61 | the timers of one explosion: at most two, a crackle 150 to 350 ms later only for a big burst, and the reveal of the burst colour 40 ms later only for the central rocket |
| Fireworks.FiredOf | script.js:54-61 | one rocket update sets at most two timers, and none for a background rocket |
| Fireworks.FiredFrom | script.js:205-208 | a rocket pass sets at most two timers per rocket, each with a delay of 40 to 350 ms |
| Fireworks.BackgroundPassSetsNoTimers | script.js:59-61 | a pass over background rockets sets no timers |
| Fireworks.Stepped | script.js:209-210 | the spark pass yields exactly one updated spark per spark |
| Fireworks.Staying | script.js:211 | the removal never makes the array longer |
| Fireworks.StayingMembers | script.js:211 | a spark is kept exactly when it has life > 0, alpha > 0.02 and y <= ch + 50 |
| Fireworks.Stays | script.js:211 | the negation of the removal test: life > 0, alpha > 0.02 and y <= ch + 50; `StayingMembers` and `SparkPassKeeps` state that exactly these sparks are kept |
| Fireworks.SteppedAt | script.js:209-210 | entry k of the updated array is the update of spark k with draw k |
| Fireworks.SparkPassKeeps | script.js:209-212 | each spark's update stays in the array exactly when it passes the test |
| Fireworks.SparkPassKeepsInv | script.js:209-212 | the sparks left by the pass satisfy the spark invariant |
| Fireworks.BornSparksUpdatedSameFrame | script.js:205-212 | a spark the rocket pass creates is updated in the same frame, and its update is kept exactly when it passes the test |
| Fireworks.PassedSparks | script.js:205-212 | the sparks after both passes number at most the old sparks plus 180 per rocket, and all keep the spark invariant; `BornSparksUpdatedSameFrame` states how the newborn sparks enter |
| Fireworks.Background | script.js:163-170 | the rocket `spawnBackgroundFirework` pushes; `BackgroundShape` states its start, target, colour and heading |
| Fireworks.BackgroundShape | script.js:163-170 | a background rocket is not central, starts at y = ch + 10 with age 0 and a palette colour; on a surface at least 120 wide it starts at least 40 from each side and aims at least 60 from each side, and on one at least 120 high it aims between y = 60 and the middle, with an upward heading |
| Fireworks.Central | script.js:246-253 | the rocket `launchCentral` pushes; `CentralShape` states its start, target, colour and heading |
| Fireworks.CentralShape | script.js:246-253 | the central rocket starts at y = ch + 20 within 120 of the middle, aims at (cw/2, ch/2 − 40), has a palette colour and, on a surface of non-negative height, heads upward, straight up when it starts at the middle |
| Fireworks.SpawnCount | script.js:213-214 | a frame spawns at most 3 rockets, and at least 1 exactly when the density draw is below 0.006 |
| Fireworks.Spawned | script.js:215 | n spawns push n rockets |
| Fireworks.SpawnedShape | script.js:213-215 | each spawned rocket is the background launch of its draw: not central, starting at y = ch + 10 |
| Fireworks.Starfield | script.js:220-233 | `buildStars` makes one star per draw |
| Fireworks.StarfieldInside | script.js:224-231 | every star lies in [0, cw] × [0, 0.6·ch] and has a positive flicker rate |
| Fireworks.Twinkled | script.js:238 | one star after `s.phase += s.flick`; `TwinkleMovesPhaseOnly` states that only the phase moves |
| Fireworks.Twinkle | script.js:237-238 | the loop over `starPositions` keeps one star per star |
| Fireworks.Drawn | script.js:234-238 | `drawStars` keeps the stars it has, or builds `StarTotal` stars when there are none |
| Fireworks.TwinkleMovesPhaseOnly | script.js:237-238 | `drawStars` moves only each star's phase, by its flicker rate |
| Fireworks.World.constructor | script.js:131 | the world starts with no rockets, sparks or stars, and `lastTime` 0 |
| Fireworks.World.Explode | script.js:133-161 | `explode` appends its blast after the untouched old sparks and returns the secondary burst exactly when big, delayed by `randInt(150, 350)` |
| Fireworks.World.AddPrimaryBatch | script.js:143-150 | the loop appends exactly the primary batch after the old sparks |
| Fireworks.World.AddPrimarySpark | script.js:144-149 | one pass of that loop appends the next spark of the batch |
| Fireworks.World.SecondaryBurst | script.js:152-159 | the delayed callback appends `randInt(10, 22)` secondary sparks after the old ones and keeps the world invariant |
| Fireworks.World.UpdateRockets | script.js:205-208 | the pass leaves exactly the updated, unexploded rockets in their order; it appends the batches of the rockets that fired, later rockets first; it returns their timers, a crackle for each big burst followed by the reveal for the central rocket |
| Fireworks.World.Detonate | script.js:56-61 | one rocket's detonation appends its batch and returns its timers |
| Fireworks.World.UpdateSparks | script.js:209-212 | the pass updates every spark once and keeps exactly those with life > 0, alpha > 0.02 and y <= ch + 50, in order, keeping the invariant |
| Fireworks.World.SpawnBackground | script.js:163-170 | `spawnBackgroundFirework` appends one background rocket and keeps the world invariant |
| Fireworks.World.SpawnBackgrounds | script.js:215 | n spawns append the n background rockets in order |
| Fireworks.World.LaunchCentral | script.js:246-253 | `launchCentral` appends the central rocket |
| Fireworks.World.BuildStars | script.js:220-233 | `buildStars` replaces the stars with the starfield of `StarCount` stars |
| Fireworks.World.DrawStars | script.js:234-238 | `drawStars` builds the field when it is empty, then advances every phase |
| Fireworks.World.SpawnRandom | script.js:213-216 | the end of `loop` appends `SpawnCount` background rockets |
| Fireworks.World.Passes | script.js:205-212 | the rocket pass, then the spark pass over the old sparks followed by those the rocket pass created |
| Fireworks.World.Animate | script.js:205-216 | the two passes, then the random spawn |
| Fireworks.World.Frame | script.js:198-217 | one `loop(t)`: records t, advances the stars, updates every rocket and spark once (including sparks born this frame), removes the spent ones, appends the spawned rockets, and returns the timers set |

## Left out

- Drawing is not modelled. This covers the `draw` methods, gradients, compositing, the fade rectangle and the rendering part of `drawStars`, which relies on `Math.sin`. All of it is canvas output.
- Browser plumbing is not modelled:
  - `resize` and the device pixel ratio (the surface size is the `World` constructor's parameter);
  - the `resize` listener that rebuilds the stars;
  - `revealTitle`'s DOM changes;
  - the pointer handler that launches a rocket at the pointer.
- Startup is not modelled: the first `requestAnimationFrame`, `launchCentral()`, the three initial spawns and the `setInterval` spawn. The operations they call are modelled.
- Fireworks.World.Explode: the audio playback is a foreign call and is left out.
- Fireworks.World.Frame: `requestAnimationFrame` scheduling is left out, and so is `dt`, which the script computes and never uses.
- Fireworks.World.Explode, Fireworks.World.UpdateRockets and Fireworks.World.Detonate return `setTimeout` callbacks as `Timer` values instead of running them later. `setInterval` is not modelled.
- Rockets.Launch and Sparks.Ignite take each angle as its unit vector (cos, sin), because `atan2`, `cos` and `sin` are floating-point functions. For a rocket, `Rockets.Heads` ties that vector to the target: it is the unit vector along the offset from start to target, or (1, 0) when the two coincide. `randGaussian` is a parameter (`SparkDraw.gauss`) for the same reason.
- The model uses exact reals for JavaScript doubles, so rounding error is not modelled.
- Fireworks.World.UpdateRockets, Fireworks.World.UpdateSparks and Fireworks.World.Frame hold `rockets` and `sparks` as sequences of values, not arrays of object references. The model therefore does not capture:
  - object identity;
  - aliasing between array entries.

  The in-place update of one object is modelled separately, by `Rockets.Rocket.Update` and `Sparks.Spark.Update`. Each is proved equal to the step function that the passes apply. The passes keep the reverse index order and the `splice` removals of the source.
- Colors.ShadeColor requires a percent in [−100, 100]. The only caller passes `rand(-40, 40)`. Beyond that range `Math.round` leaves [0, 255], and the 32-bit `<<` / `|` packing would have to be modelled.
- Colors.ParseRgb returns None for every token that is not six hex digits after stripping '#' and widening. JavaScript may still compute channels for such a token, or get NaN. Examples are a five-digit token ("#abcde" gives 171, 205, 14), a sign ("-f" parses as −15) and leading blanks. Only well-formed tokens reach it in the script.
- Colors.HexToRgba models only the hex branch. The `rgb(`/`rgba(` pass-through is left out; nothing in the script reaches it.
- Fireworks.World.Explode takes a base colour that is either empty or a '#rrggbb' token. Those are the only colours the script passes. A `null` base colour, which the script treats like the empty one, is not modelled.
- Fireworks.World.Frame requires draw records long enough for the frame (`|fd.flicks| >= |sparks| + 180·|rockets|`, and so on). A record is only a finite supply of `Math.random()` values.
- `airFriction` is declared in the script and never used. It is not modelled.
- `randGaussian`'s rejection loop is not modelled; its sample is a parameter.
