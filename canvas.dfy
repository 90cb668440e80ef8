/**
 * The hero background as an object (script.js:447-559): its size, its
 * particle array and the pointer, with the handlers that change them.
 */
module ParticleCanvas {
  import opened Wrappers
  import opened Particles
  import opened Links

  /** Left-hand side of `SpawnAt`'s requirement: draws that `Resize` consumes. */
  function DrawsNeeded(width: nat, height: nat): nat {
    DrawsPerParticle * Count(width, height)
  }

  /** Particle `k < n` of `n` finds its five draws in a sequence of `5 n` or more. */
  lemma DrawsFor(k: nat, n: nat, available: nat)
    requires k < n && DrawsPerParticle * n <= available
    ensures DrawsPerParticle * (k + 1) <= available
  {
  }

  class ParticleField {
    var width: nat
    var height: nat
    var particles: seq<Particle>
    /** `mouse.x`/`mouse.y`; both are set or cleared together. */
    var pointer: Option<Point>

    /** Between frames every particle is in the field (possibly one step past an edge). */
    ghost predicate Valid()
      reads this
    {
      forall k :: 0 <= k < |particles| ==> InField(particles[k], width, height)
    }

    /** Set-up: the canvas is added, `resize()` runs once and the pointer is unknown. */
    constructor (w: nat, h: nat, draws: seq<real>)
      requires DrawsNeeded(w, h) <= |draws| && AllDraws(draws)
      ensures Valid()
      ensures width == w && height == h && pointer == None
      ensures |particles| == Count(w, h)
      ensures forall k :: 0 <= k < |particles| ==> particles[k] == SpawnAt(w, h, draws, k)
    {
      particles := [];
      pointer := None;
      new;
      Resize(w, h, draws);
    }

    /** `resize`: take the hero's new size and rebuild every particle. */
    method Resize(w: nat, h: nat, draws: seq<real>)
      requires DrawsNeeded(w, h) <= |draws| && AllDraws(draws)
      modifies this`width, this`height, this`particles
      ensures Valid()
      ensures width == w && height == h
      ensures forall k :: 0 <= k < |particles| ==> FreshInRange(particles[k], w, h)
      ensures |particles| == Count(w, h)
      ensures forall k :: 0 <= k < |particles| ==> particles[k] == SpawnAt(w, h, draws, k)
    {
      width := w;
      height := h;
      InitParticles(draws);
    }

    /** `initParticles`: replace the array with `Count(width, height)` new particles. */
    method InitParticles(draws: seq<real>)
      requires DrawsNeeded(width, height) <= |draws| && AllDraws(draws)
      modifies this`particles
      ensures Valid()
      ensures forall k :: 0 <= k < |particles| ==> FreshInRange(particles[k], width, height)
      ensures |particles| == Count(width, height)
      ensures forall k :: 0 <= k < |particles| ==> particles[k] == SpawnAt(width, height, draws, k)
    {
      particles := [];
      var count := Count(width, height);
      var i := 0;
      while i < count
        invariant 0 <= i <= count
        invariant |particles| == i
        invariant forall k :: 0 <= k < i ==> particles[k] == SpawnAt(width, height, draws, k)
        invariant count == Count(width, height)
      {
        DrawsFor(i, count, |draws|);
        var b := DrawsPerParticle * i;
        var p := Particle(draws[b] * width as real,
                          draws[b + 1] * height as real,
                          (draws[b + 2] - 0.5) * 1.0,
                          (draws[b + 3] - 0.5) * 1.0,
                          draws[b + 4] * 2.0 + 1.0);
        assert p == SpawnAt(width, height, draws, i);
        particles := particles + [p];
        i := i + 1;
      }
      forall k | 0 <= k < |particles|
        ensures FreshInRange(particles[k], width, height) && InField(particles[k], width, height)
      {
        SpawnAtInRange(width, height, draws, k);
        FreshIsInField(particles[k], width, height);
      }
    }

    /** The `mousemove` handler on the window: the pointer relative to the canvas's
      * top-left corner `(left, top)`, wherever in the window it is. */
    method MouseMove(clientX: real, clientY: real, left: real, top: real)
      modifies this`pointer
      ensures pointer == Some(Point(clientX - left, clientY - top))
    {
      pointer := Some(Point(clientX - left, clientY - top));
    }

    /** The `mouseleave` handler on the hero. */
    method MouseLeave()
      modifies this`pointer
      ensures pointer == None
    {
      pointer := None;
    }

    /**
     * `animate`: one frame. Each particle in array order is moved and bounced
     * in place, then linked to every later (not yet moved) particle within 100
     * pixels and to the pointer within 150 pixels. `sqrt` stands for
     * `Math.sqrt`; the lines are returned instead of stroked.
     */
    method Step(sqrt: real -> real) returns (lines: seq<Line>)
      requires Valid()
      modifies this`particles
      ensures Valid()
      ensures particles == MoveAll(old(particles), width, height)
      ensures lines == FrameLines(old(particles), width, height, pointer, sqrt)
    {
      ghost var ps := particles;
      lines := [];
      var i := 0;
      while i < |particles|
        invariant |particles| == |ps| && 0 <= i <= |ps|
        invariant forall k :: 0 <= k < i ==> particles[k] == Moved(ps[k], width, height)
        invariant forall k :: i <= k < |ps| ==> particles[k] == ps[k]
        invariant lines == FrameLinesUpTo(ps, width, height, pointer, sqrt, i)
      {
        var p := Advance(particles[i]);
        particles := particles[i := p];

        var links := LinksToLater(i, p, sqrt);
        var toPointer := LinkToPointer(i, p, sqrt);
        PairLinesSameTail(particles, ps, i, p, i + 1, sqrt);
        assert links + toPointer == ParticleLines(ps, width, height, pointer, sqrt, i);
        UpToStep(ps, width, height, pointer, sqrt, i);
        lines := lines + (links + toPointer);
        i := i + 1;
      }
      assert particles == MoveAll(ps, width, height);
    }

    /** The first statements of the `forEach` body: move `p` by its velocity, then
      * flip each velocity component whose coordinate left the hero. */
    method Advance(p: Particle) returns (q: Particle)
      ensures q == Moved(p, width, height)
    {
      var x := p.x + p.vx;
      var y := p.y + p.vy;
      var vx, vy := p.vx, p.vy;
      if x < 0.0 || x > width as real { vx := vx * -1.0; }
      if y < 0.0 || y > height as real { vy := vy * -1.0; }
      q := Particle(x, y, vx, vy, p.size);
    }

    /** The pointer line of the moved particle `p` (index `i`), if the pointer is
      * known and within 150 pixels. */
    method LinkToPointer(i: nat, p: Particle, sqrt: real -> real) returns (toPointer: seq<Line>)
      ensures toPointer == PointerLines(i, p, pointer, sqrt)
    {
      toPointer := [];
      if pointer.Some? {
        var m := pointer.value;
        var d2 := DistSq(Point(p.x, p.y), m);
        if d2 < PointerRadius * PointerRadius {
          toPointer := [PointerLink(i, Point(p.x, p.y), m, PointerOpacity(sqrt(d2)))];
        }
      }
    }

    /** The inner `for` loop of `animate`: links from `p`, the moved particle `i`,
      * to particles `i + 1 ..` of the array as it is now. */
    method LinksToLater(i: nat, p: Particle, sqrt: real -> real) returns (links: seq<Line>)
      requires i < |particles|
      ensures links == PairLines(particles, i, p, i + 1, sqrt)
    {
      links := [];
      var j := i + 1;
      while j < |particles|
        invariant i + 1 <= j <= |particles|
        invariant links + PairLines(particles, i, p, j, sqrt) == PairLines(particles, i, p, i + 1, sqrt)
      {
        var p2 := particles[j];
        var d2 := DistSq(Point(p.x, p.y), Point(p2.x, p2.y));
        if d2 < LinkDistance * LinkDistance {
          links := links + [ParticleLink(i, j, Point(p.x, p.y), Point(p2.x, p2.y), LinkOpacity(sqrt(d2)))];
        }
        assert LinkTo(particles, i, p, j, sqrt) + PairLines(particles, i, p, j + 1, sqrt)
            == PairLines(particles, i, p, j, sqrt);
        j := j + 1;
      }
    }
  }

  /** A frame after `mouseleave` and before the next `mousemove` draws no pointer line. */
  method FramesAfterLeave(field: ParticleField, sqrt: real -> real) returns (first: seq<Line>, second: seq<Line>)
    requires field.Valid()
    modifies field
    ensures field.pointer == None
    ensures forall line :: line in first ==> line.ParticleLink?
    ensures forall line :: line in second ==> line.ParticleLink?
  {
    field.MouseLeave();
    first := field.Step(sqrt);
    NoPointerNoPointerLines(old(field.particles), field.width, field.height, sqrt);
    ghost var ps := field.particles;
    second := field.Step(sqrt);
    NoPointerNoPointerLines(ps, field.width, field.height, sqrt);
  }
}
