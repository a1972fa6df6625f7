/** The tuning constants declared at the top of the fireworks script. */
module Tuning {
  /** Downward acceleration per tick (a rocket feels 0.05 of it). */
  const Gravity: real := 0.05
  /** Per-tick velocity factor of a spark. */
  const SparkFriction: real := 0.985
  /** Sparks in a big primary burst. */
  const ParticleCount: nat := 180
  /** Chance per frame of an ambient spawn. */
  const BackgroundDensity: real := 0.006
  /** Upper limit the ambient spawn count is clipped against (together with 3). */
  const MaxBackgroundParticles: nat := 5
}
