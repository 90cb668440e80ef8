/**
 * The dots of the hero background (script.js:480-505): how a particle is
 * spawned from random draws and how one frame moves and bounces it.
 */
module Particles {

  /** One dot: position, velocity per frame and radius. */
  datatype Particle = Particle(x: real, y: real, vx: real, vy: real, size: real)

  /** Square pixels of hero area per particle. */
  const DensityDivisor: int := 10000

  /** Random draws taken per particle: x, y, vx, vy, size, in that order. */
  const DrawsPerParticle: nat := 5

  /** Number of particles for a hero of the given size: floor(width * height / 10000). */
  function Count(width: nat, height: nat): (n: nat)
    ensures n * DensityDivisor <= width * height < (n + 1) * DensityDivisor
  {
    width * height / DensityDivisor
  }

  /** A value `Math.random()` can return. */
  predicate IsDraw(r: real) {
    0.0 <= r < 1.0
  }

  predicate AllDraws(draws: seq<real>) {
    forall k :: 0 <= k < |draws| ==> IsDraw(draws[k])
  }

  /** One particle from five draws, as `initParticles` builds it. */
  function Spawn(width: nat, height: nat, rx: real, ry: real, rvx: real, rvy: real, rsize: real): Particle {
    Particle(rx * width as real, ry * height as real, (rvx - 0.5) * 1.0, (rvy - 0.5) * 1.0, rsize * 2.0 + 1.0)
  }

  /** Particle `k` of a fresh field, built from draws 5k .. 5k+4. */
  function SpawnAt(width: nat, height: nat, draws: seq<real>, k: nat): Particle
    requires DrawsPerParticle * (k + 1) <= |draws|
  {
    var b := DrawsPerParticle * k;
    Spawn(width, height, draws[b], draws[b + 1], draws[b + 2], draws[b + 3], draws[b + 4])
  }

  /** The ranges a freshly spawned particle lies in. */
  predicate FreshInRange(p: Particle, width: nat, height: nat) {
    && 0.0 <= p.x < width as real
    && 0.0 <= p.y < height as real
    && -0.5 <= p.vx < 0.5
    && -0.5 <= p.vy < 0.5
    && 1.0 <= p.size < 3.0
  }

  /** A field with at least one particle is at least one pixel in each direction. */
  lemma PositiveCountPositiveSides(width: nat, height: nat)
    requires Count(width, height) > 0
    ensures width > 0 && height > 0
  {
  }

  lemma ScaledDrawBelow(r: real, bound: nat)
    requires IsDraw(r) && bound > 0
    ensures 0.0 <= r * bound as real < bound as real
  {
    var b := bound as real;
    assert r * b <= b * 1.0 - (1.0 - r) * b;
    assert (1.0 - r) * b > 0.0;
  }

  lemma SpawnInRange(width: nat, height: nat, rx: real, ry: real, rvx: real, rvy: real, rsize: real)
    requires width > 0 && height > 0
    requires IsDraw(rx) && IsDraw(ry) && IsDraw(rvx) && IsDraw(rvy) && IsDraw(rsize)
    ensures FreshInRange(Spawn(width, height, rx, ry, rvx, rvy, rsize), width, height)
  {
    ScaledDrawBelow(rx, width);
    ScaledDrawBelow(ry, height);
    var p := Spawn(width, height, rx, ry, rvx, rvy, rsize);
    assert p.x == rx * width as real && p.y == ry * height as real;
    assert p.vx == rvx - 0.5 && p.vy == rvy - 0.5;
    assert p.size == rsize * 2.0 + 1.0;
    assert 0.0 <= p.x < width as real && 0.0 <= p.y < height as real;
    assert -0.5 <= p.vx < 0.5 && -0.5 <= p.vy < 0.5;
    assert 1.0 <= p.size < 3.0;
  }

  /** Every particle `resize` creates starts inside the hero with a small velocity. */
  lemma SpawnAtInRange(width: nat, height: nat, draws: seq<real>, k: nat)
    requires DrawsPerParticle * (k + 1) <= |draws| && AllDraws(draws)
    requires k < Count(width, height)
    ensures FreshInRange(SpawnAt(width, height, draws, k), width, height)
  {
    PositiveCountPositiveSides(width, height);
    var b := DrawsPerParticle * k;
    assert IsDraw(draws[b]) && IsDraw(draws[b + 1]) && IsDraw(draws[b + 2]);
    assert IsDraw(draws[b + 3]) && IsDraw(draws[b + 4]);
    SpawnInRange(width, height, draws[b], draws[b + 1], draws[b + 2], draws[b + 3], draws[b + 4]);
  }

  /** Whether one frame flips a velocity: the moved coordinate left [0, bound]. */
  predicate Outside(pos: real, bound: nat) {
    pos < 0.0 || pos > bound as real
  }

  /** One frame for one particle: move by the velocity, then flip each velocity
    * component whose coordinate is now outside the hero; the position is kept. */
  function Moved(p: Particle, width: nat, height: nat): (q: Particle)
    ensures q.x == p.x + p.vx && q.y == p.y + p.vy
    ensures Outside(q.x, width) ==> q.vx == -p.vx
    ensures !Outside(q.x, width) ==> q.vx == p.vx
    ensures Outside(q.y, height) ==> q.vy == -p.vy
    ensures !Outside(q.y, height) ==> q.vy == p.vy
    ensures q.size == p.size
    ensures InField(p, width, height) ==> InField(q, width, height)
  {
    var x := p.x + p.vx;
    var y := p.y + p.vy;
    Particle(x, y,
             if Outside(x, width) then -p.vx else p.vx,
             if Outside(y, height) then -p.vy else p.vy,
             p.size)
  }

  /**
   * Where a coordinate can be at the end of a frame. Positions are never
   * clamped, so a particle may be outside, but then its velocity already
   * points back and the next frame's move brings it back within the bound.
   */
  predicate AxisBounded(pos: real, v: real, bound: nat) {
    || 0.0 <= pos <= bound as real
    || (pos < 0.0 && v > 0.0 && pos + v >= 0.0)
    || (pos > bound as real && v < 0.0 && pos + v <= bound as real)
  }

  /** What holds of every particle of the field between frames. */
  predicate InField(p: Particle, width: nat, height: nat) {
    && AxisBounded(p.x, p.vx, width)
    && AxisBounded(p.y, p.vy, height)
    && -0.5 <= p.vx <= 0.5
    && -0.5 <= p.vy <= 0.5
    && 1.0 <= p.size < 3.0
  }

  lemma FreshIsInField(p: Particle, width: nat, height: nat)
    requires FreshInRange(p, width, height)
    ensures InField(p, width, height)
  {
  }

  /** The overshoot past an edge is at most one frame's movement, half a pixel. */
  lemma InFieldNearBox(p: Particle, width: nat, height: nat)
    requires InField(p, width, height)
    ensures -0.5 <= p.x <= width as real + 0.5
    ensures -0.5 <= p.y <= height as real + 0.5
  {
  }

  /** A particle that was inside can end a frame outside: no clamping. */
  lemma OvershootHappens()
    ensures var q := Moved(Particle(0.1, 5.0, -0.4, 0.0, 1.0), 10, 10);
            q.x == -0.3 && q.x < 0.0 && q.vx == 0.4 && InField(q, 10, 10)
  {
  }

  /** The whole array after one frame, particle by particle. */
  function MoveAll(ps: seq<Particle>, width: nat, height: nat): (qs: seq<Particle>)
    ensures |qs| == |ps|
    ensures forall k :: 0 <= k < |ps| ==> qs[k] == Moved(ps[k], width, height)
  {
    seq(|ps|, k requires 0 <= k < |ps| => Moved(ps[k], width, height))
  }
}
