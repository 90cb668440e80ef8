/**
 * The lines one frame of `animate` draws (script.js:513-544): a line from
 * every particle to each later particle closer than 100 pixels, and a line
 * to the pointer when it is closer than 150 pixels.
 */
module Links {
  import opened Wrappers
  import opened Particles

  datatype Point = Point(x: real, y: real)

  /**
   * One stroke of the canvas. `i` is the index of the particle being drawn and
   * `j` the index of the later particle it is linked to; they record which
   * iteration drew the line and are not seen by the canvas.
   */
  datatype Line =
    | ParticleLink(i: nat, j: nat, from: Point, to: Point, opacity: real)
    | PointerLink(i: nat, from: Point, to: Point, opacity: real)

  /** Particles closer than this are linked (script.js:520). */
  const LinkDistance: real := 100.0

  /** The pointer's connection radius, `mouse.radius` (script.js:464). */
  const PointerRadius: real := 150.0

  /** `Math.sqrt`, taken as the exact square root on the non-negative reals. */
  ghost predicate IsSqrt(sqrt: real -> real) {
    forall q :: 0.0 <= q ==> 0.0 <= sqrt(q) && sqrt(q) * sqrt(q) == q
  }

  function Position(p: Particle): Point {
    Point(p.x, p.y)
  }

  /** Squared Euclidean distance, `dx * dx + dy * dy`. */
  function DistSq(a: Point, b: Point): (d: real)
    ensures d >= 0.0
  {
    (a.x - b.x) * (a.x - b.x) + (a.y - b.y) * (a.y - b.y)
  }

  /** Stroke opacity of a link between particles `dist` apart. */
  function LinkOpacity(dist: real): (o: real)
    ensures 0.0 <= dist < LinkDistance ==> 0.0 < o <= 0.1
    ensures o == 0.1 <==> dist == 0.0
  {
    0.1 - dist / 1000.0
  }

  /** Stroke opacity of a line to a pointer `dist` away. */
  function PointerOpacity(dist: real): (o: real)
    ensures 0.0 <= dist < PointerRadius ==> 0.0 < o <= 0.2
    ensures o == 0.2 <==> dist == 0.0
  {
    0.2 - dist / PointerRadius * 0.2
  }

  /** A non-negative root of a square below `bound * bound` is below `bound`. */
  lemma RootBelow(s: real, q: real, bound: real)
    requires 0.0 <= s && s * s == q && 0.0 < bound && q < bound * bound
    ensures s < bound
  {
  }

  lemma SquareStrict(s: real, d: real)
    requires 0.0 <= s < d
    ensures s * s < d * d
  {
    var gap, sum := d - s, d + s;
    assert gap > 0.0 && sum > 0.0;
    assert gap * sum > 0.0;
    assert d * d - s * s == gap * sum;
  }

  /** Non-negative numbers with equal squares are equal. */
  lemma RootUnique(s: real, d: real)
    requires 0.0 <= s && 0.0 <= d && s * s == d * d
    ensures s == d
  {
    if s < d {
      SquareStrict(s, d);
    } else if d < s {
      SquareStrict(d, s);
    }
  }

  /** Particle `a` is within link distance of particle `b`. */
  predicate Close(a: Particle, b: Particle) {
    DistSq(Position(a), Position(b)) < LinkDistance * LinkDistance
  }

  /** The link particle `a` (index `i`, already moved) would get to particle `ps[j]`. */
  function LinkLine(ps: seq<Particle>, i: nat, a: Particle, j: nat, sqrt: real -> real): Line
    requires j < |ps|
  {
    ParticleLink(i, j, Position(a), Position(ps[j]), LinkOpacity(sqrt(DistSq(Position(a), Position(ps[j])))))
  }

  /** What one iteration of the inner `for` loop draws. */
  function LinkTo(ps: seq<Particle>, i: nat, a: Particle, j: nat, sqrt: real -> real): seq<Line>
    requires j < |ps|
  {
    if Close(a, ps[j]) then [LinkLine(ps, i, a, j, sqrt)] else []
  }

  /** The inner `for` loop: links from `a` to `ps[j]`, `ps[j+1]`, ... in order. */
  function PairLines(ps: seq<Particle>, i: nat, a: Particle, j: nat, sqrt: real -> real): seq<Line>
    requires j <= |ps|
    decreases |ps| - j
  {
    if j == |ps| then [] else LinkTo(ps, i, a, j, sqrt) + PairLines(ps, i, a, j + 1, sqrt)
  }

  /** The line from `a` (index `i`) to the pointer, if there is one and it is close. */
  function PointerLines(i: nat, a: Particle, pointer: Option<Point>, sqrt: real -> real): seq<Line> {
    match pointer
    case None => []
    case Some(m) =>
      var d2 := DistSq(Position(a), m);
      if d2 < PointerRadius * PointerRadius
      then [PointerLink(i, Position(a), m, PointerOpacity(sqrt(d2)))]
      else []
  }

  /** Everything iteration `i` of `forEach` draws: particle `i` has moved, the later ones have not. */
  function ParticleLines(ps: seq<Particle>, width: nat, height: nat, pointer: Option<Point>,
                         sqrt: real -> real, i: nat): seq<Line>
    requires i < |ps|
  {
    var a := Moved(ps[i], width, height);
    PairLines(ps, i, a, i + 1, sqrt) + PointerLines(i, a, pointer, sqrt)
  }

  /** The lines of a sequence of loop iterations, one block per iteration, in order. */
  function Flatten(blocks: seq<seq<Line>>): seq<Line> {
    if blocks == [] then [] else Flatten(blocks[..|blocks| - 1]) + blocks[|blocks| - 1]
  }

  /** The blocks of the first `k` iterations of `forEach` over `ps` (the array before the frame). */
  function Iterations(ps: seq<Particle>, width: nat, height: nat, pointer: Option<Point>,
                      sqrt: real -> real, k: nat): (bs: seq<seq<Line>>)
    requires k <= |ps|
    ensures |bs| == k
  {
    seq(k, i requires 0 <= i < k => ParticleLines(ps, width, height, pointer, sqrt, i))
  }

  /** The lines of the first `k` iterations of one frame. */
  function FrameLinesUpTo(ps: seq<Particle>, width: nat, height: nat, pointer: Option<Point>,
                          sqrt: real -> real, k: nat): seq<Line>
    requires k <= |ps|
  {
    Flatten(Iterations(ps, width, height, pointer, sqrt, k))
  }

  /** All lines one frame draws, in drawing order. */
  function FrameLines(ps: seq<Particle>, width: nat, height: nat, pointer: Option<Point>,
                      sqrt: real -> real): seq<Line>
  {
    FrameLinesUpTo(ps, width, height, pointer, sqrt, |ps|)
  }

  // ---------------------------------------------------------------------
  // The reference description of a frame's lines

  /** Particle `i`, once moved, is within link distance of the not yet moved particle `j`. */
  predicate Linked(ps: seq<Particle>, width: nat, height: nat, i: nat, j: nat)
    requires i < j < |ps|
  {
    Close(Moved(ps[i], width, height), ps[j])
  }

  /** The line that links `i` to `j` when they are `Linked`. */
  function ExpectedLink(ps: seq<Particle>, width: nat, height: nat, sqrt: real -> real, i: nat, j: nat): Line
    requires i < j < |ps|
  {
    LinkLine(ps, i, Moved(ps[i], width, height), j, sqrt)
  }

  /** The pointer is present and within its radius of particle `i`, once moved. */
  predicate NearPointer(ps: seq<Particle>, width: nat, height: nat, pointer: Option<Point>, i: nat)
    requires i < |ps|
  {
    pointer.Some? && DistSq(Position(Moved(ps[i], width, height)), pointer.value) < PointerRadius * PointerRadius
  }

  function ExpectedPointerLink(ps: seq<Particle>, width: nat, height: nat, pointer: Option<Point>,
                               sqrt: real -> real, i: nat): Line
    requires i < |ps| && pointer.Some?
  {
    var a := Position(Moved(ps[i], width, height));
    PointerLink(i, a, pointer.value, PointerOpacity(sqrt(DistSq(a, pointer.value))))
  }

  /** A line is one the frame over `ps` is meant to draw. */
  predicate Expected(ps: seq<Particle>, width: nat, height: nat, pointer: Option<Point>,
                     sqrt: real -> real, line: Line)
  {
    match line
    case ParticleLink(i, j, _, _, _) =>
      i < j < |ps| && Linked(ps, width, height, i, j) && line == ExpectedLink(ps, width, height, sqrt, i, j)
    case PointerLink(i, _, _, _) =>
      i < |ps| && NearPointer(ps, width, height, pointer, i)
      && line == ExpectedPointerLink(ps, width, height, pointer, sqrt, i)
  }

  /** Drawing order: by particle, and for one particle its links by partner, then the pointer line. */
  predicate Precedes(a: Line, b: Line) {
    a.i < b.i || (a.i == b.i && a.ParticleLink? && (b.PointerLink? || a.j < b.j))
  }

  predicate Ordered(lines: seq<Line>) {
    forall k1, k2 :: 0 <= k1 < k2 < |lines| ==> Precedes(lines[k1], lines[k2])
  }

  /** Every line of `ls` is a link from `a` (index `i`) to a close particle `ps[j']`, `j <= j'`. */
  predicate PairLinesSound(ps: seq<Particle>, i: nat, a: Particle, j: nat, sqrt: real -> real, ls: seq<Line>) {
    forall k :: 0 <= k < |ls| ==>
      && ls[k].ParticleLink? && ls[k].i == i && j <= ls[k].j < |ps|
      && Close(a, ps[ls[k].j]) && ls[k] == LinkLine(ps, i, a, ls[k].j, sqrt)
  }

  /** Every close particle `ps[j']`, `j <= j'`, gets its link in `ls`. */
  predicate PairLinesComplete(ps: seq<Particle>, i: nat, a: Particle, j: nat, sqrt: real -> real, ls: seq<Line>) {
    forall j' :: j <= j' < |ps| && Close(a, ps[j']) ==> LinkLine(ps, i, a, j', sqrt) in ls
  }

  /** The links of `ls` are in strictly increasing partner order. */
  predicate IncreasingPartners(ls: seq<Line>) {
    forall k1, k2 :: 0 <= k1 < k2 < |ls| ==> ls[k1].ParticleLink? && ls[k2].ParticleLink? && ls[k1].j < ls[k2].j
  }

  /** The links of particle `a` (index `i`) to `ps[j..]`, in partner order. */
  predicate PairLinesShape(ps: seq<Particle>, i: nat, a: Particle, j: nat, sqrt: real -> real, ls: seq<Line>) {
    && PairLinesSound(ps, i, a, j, sqrt, ls)
    && PairLinesComplete(ps, i, a, j, sqrt, ls)
    && IncreasingPartners(ls)
  }

  // ---------------------------------------------------------------------
  // Helper lemmas, one loop at a time

  lemma {:induction false} PairLinesAreSound(ps: seq<Particle>, i: nat, a: Particle, j: nat, sqrt: real -> real)
    requires j <= |ps|
    ensures PairLinesSound(ps, i, a, j, sqrt, PairLines(ps, i, a, j, sqrt))
    decreases |ps| - j
  {
    if j < |ps| {
      PairLinesAreSound(ps, i, a, j + 1, sqrt);
      var head := LinkTo(ps, i, a, j, sqrt);
      var tail := PairLines(ps, i, a, j + 1, sqrt);
      var ls: seq<Line> := head + tail;
      assert PairLines(ps, i, a, j, sqrt) == ls;
      forall k | 0 <= k < |ls|
        ensures ls[k].ParticleLink? && ls[k].i == i && j <= ls[k].j < |ps|
        ensures Close(a, ps[ls[k].j]) && ls[k] == LinkLine(ps, i, a, ls[k].j, sqrt)
      {
        if k >= |head| {
          assert ls[k] == tail[k - |head|];
        }
      }
    }
  }

  lemma {:induction false} PairLinesAreComplete(ps: seq<Particle>, i: nat, a: Particle, j: nat, sqrt: real -> real)
    requires j <= |ps|
    ensures PairLinesComplete(ps, i, a, j, sqrt, PairLines(ps, i, a, j, sqrt))
    decreases |ps| - j
  {
    if j < |ps| {
      PairLinesAreComplete(ps, i, a, j + 1, sqrt);
      var head := LinkTo(ps, i, a, j, sqrt);
      var tail := PairLines(ps, i, a, j + 1, sqrt);
      assert PairLines(ps, i, a, j, sqrt) == head + tail;
      forall j' | j <= j' < |ps| && Close(a, ps[j'])
        ensures LinkLine(ps, i, a, j', sqrt) in head + tail
      {
        if j' > j {
          assert LinkLine(ps, i, a, j', sqrt) in tail;
        } else {
          assert LinkLine(ps, i, a, j', sqrt) in head;
        }
      }
    }
  }

  lemma {:induction false} PairLinesIncreasing(ps: seq<Particle>, i: nat, a: Particle, j: nat, sqrt: real -> real)
    requires j <= |ps|
    ensures IncreasingPartners(PairLines(ps, i, a, j, sqrt))
    decreases |ps| - j
  {
    if j < |ps| {
      PairLinesIncreasing(ps, i, a, j + 1, sqrt);
      PairLinesAreSound(ps, i, a, j + 1, sqrt);
      var head := LinkTo(ps, i, a, j, sqrt);
      var tail := PairLines(ps, i, a, j + 1, sqrt);
      var ls: seq<Line> := head + tail;
      assert PairLines(ps, i, a, j, sqrt) == ls;
      forall k1, k2 | 0 <= k1 < k2 < |ls| ensures ls[k1].ParticleLink? && ls[k2].ParticleLink? && ls[k1].j < ls[k2].j {
        if k1 >= |head| {
          assert ls[k1] == tail[k1 - |head|] && ls[k2] == tail[k2 - |head|];
        } else {
          assert ls[k2] == tail[k2 - |head|];
        }
      }
    }
  }

  lemma PairLinesFacts(ps: seq<Particle>, i: nat, a: Particle, j: nat, sqrt: real -> real)
    requires j <= |ps|
    ensures PairLinesShape(ps, i, a, j, sqrt, PairLines(ps, i, a, j, sqrt))
  {
    PairLinesAreSound(ps, i, a, j, sqrt);
    PairLinesAreComplete(ps, i, a, j, sqrt);
    PairLinesIncreasing(ps, i, a, j, sqrt);
  }

  /** The links of one iteration only look at the particles after it. */
  lemma {:induction false} PairLinesSameTail(ps: seq<Particle>, qs: seq<Particle>, i: nat, a: Particle, j: nat,
                                             sqrt: real -> real)
    requires j <= |ps| == |qs|
    requires forall k :: j <= k < |ps| ==> ps[k] == qs[k]
    ensures PairLines(ps, i, a, j, sqrt) == PairLines(qs, i, a, j, sqrt)
    decreases |ps| - j
  {
    if j < |ps| {
      PairLinesSameTail(ps, qs, i, a, j + 1, sqrt);
    }
  }

  predicate PointerLinesShape(ps: seq<Particle>, width: nat, height: nat, pointer: Option<Point>,
                              sqrt: real -> real, i: nat, ls: seq<Line>)
    requires i < |ps|
  {
    && |ls| <= 1
    && (forall k :: 0 <= k < |ls| ==> pointer.Some? && ls[k] == ExpectedPointerLink(ps, width, height, pointer, sqrt, i))
    && (|ls| == 1 <==> NearPointer(ps, width, height, pointer, i))
  }

  lemma PointerLinesFacts(ps: seq<Particle>, width: nat, height: nat, pointer: Option<Point>,
                          sqrt: real -> real, i: nat)
    requires i < |ps|
    ensures PointerLinesShape(ps, width, height, pointer, sqrt, i,
                              PointerLines(i, Moved(ps[i], width, height), pointer, sqrt))
  {
  }

  /** Every line of iteration `i` is one the frame is meant to draw, and belongs to particle `i`. */
  lemma ParticleLinesSound(ps: seq<Particle>, width: nat, height: nat, pointer: Option<Point>,
                           sqrt: real -> real, i: nat)
    requires i < |ps|
    ensures forall line :: line in ParticleLines(ps, width, height, pointer, sqrt, i) ==>
              line.i == i && Expected(ps, width, height, pointer, sqrt, line)
  {
    var a := Moved(ps[i], width, height);
    var pairs := PairLines(ps, i, a, i + 1, sqrt);
    var ptr := PointerLines(i, a, pointer, sqrt);
    PairLinesAreSound(ps, i, a, i + 1, sqrt);
    PointerLinesFacts(ps, width, height, pointer, sqrt, i);
    forall line: Line | line in pairs + ptr
      ensures line.i == i && Expected(ps, width, height, pointer, sqrt, line)
    {
      if line in pairs {
        var k :| 0 <= k < |pairs| && pairs[k] == line;
        assert Close(a, ps[line.j]) && line == LinkLine(ps, i, a, line.j, sqrt);
      } else {
        assert line == ptr[0];
      }
    }
  }

  lemma ParticleLinesOrdered(ps: seq<Particle>, width: nat, height: nat, pointer: Option<Point>,
                             sqrt: real -> real, i: nat)
    requires i < |ps|
    ensures Ordered(ParticleLines(ps, width, height, pointer, sqrt, i))
  {
    var a := Moved(ps[i], width, height);
    var pairs := PairLines(ps, i, a, i + 1, sqrt);
    var ptr := PointerLines(i, a, pointer, sqrt);
    PairLinesFacts(ps, i, a, i + 1, sqrt);
    PointerLinesFacts(ps, width, height, pointer, sqrt, i);
    var ls: seq<Line> := pairs + ptr;
    forall k1, k2 | 0 <= k1 < k2 < |ls| ensures Precedes(ls[k1], ls[k2]) {
      if k2 < |pairs| {
        assert ls[k1] == pairs[k1] && ls[k2] == pairs[k2];
      } else {
        assert k1 < |pairs|;
        assert ls[k1] == pairs[k1] && ls[k2] == ptr[k2 - |pairs|];
      }
    }
  }

  lemma ParticleLinesIndex(ps: seq<Particle>, width: nat, height: nat, pointer: Option<Point>,
                           sqrt: real -> real, i: nat)
    requires i < |ps|
    ensures forall k :: 0 <= k < |ParticleLines(ps, width, height, pointer, sqrt, i)| ==>
              ParticleLines(ps, width, height, pointer, sqrt, i)[k].i == i
  {
    var a := Moved(ps[i], width, height);
    var pairs := PairLines(ps, i, a, i + 1, sqrt);
    var ptr := PointerLines(i, a, pointer, sqrt);
    PairLinesAreSound(ps, i, a, i + 1, sqrt);
    var ls: seq<Line> := pairs + ptr;
    forall k | 0 <= k < |ls| ensures ls[k].i == i {
      if k < |pairs| {
        assert ls[k] == pairs[k];
      } else {
        assert ls[k] == ptr[k - |pairs|];
      }
    }
  }

  /** Every line of `ls` belongs to a particle below `n`. */
  predicate IndicesBelow(ls: seq<Line>, n: nat) {
    forall k :: 0 <= k < |ls| ==> ls[k].i < n
  }

  lemma OrderedAppend(front: seq<Line>, back: seq<Line>, n: nat)
    requires n > 0
    requires Ordered(front) && Ordered(back)
    requires IndicesBelow(front, n - 1)
    requires forall k :: 0 <= k < |back| ==> back[k].i == n - 1
    ensures Ordered(front + back) && IndicesBelow(front + back, n)
  {
    var ls := front + back;
    forall k1, k2 | 0 <= k1 < k2 < |ls| ensures Precedes(ls[k1], ls[k2]) {
      if k2 < |front| {
        assert ls[k1] == front[k1] && ls[k2] == front[k2];
      } else if k1 < |front| {
        assert ls[k1] == front[k1] && ls[k2] == back[k2 - |front|];
      } else {
        assert ls[k1] == back[k1 - |front|] && ls[k2] == back[k2 - |front|];
      }
    }
    forall k | 0 <= k < |ls| ensures ls[k].i < n {
      if k < |front| {
        assert ls[k] == front[k];
      } else {
        assert ls[k] == back[k - |front|];
      }
    }
  }

  /** Block `b` holds only lines of particle `b`, each block in drawing order. */
  predicate OrderedBlocks(bs: seq<seq<Line>>) {
    && (forall b, k :: 0 <= b < |bs| && 0 <= k < |bs[b]| ==> bs[b][k].i == b)
    && (forall b :: 0 <= b < |bs| ==> Ordered(bs[b]))
  }

  lemma {:induction false} FlattenOrdered(bs: seq<seq<Line>>)
    requires OrderedBlocks(bs)
    ensures Ordered(Flatten(bs)) && IndicesBelow(Flatten(bs), |bs|)
  {
    if bs != [] {
      var n := |bs|;
      var init := bs[..n - 1];
      assert OrderedBlocks(init) by {
        forall b, k | 0 <= b < |init| && 0 <= k < |init[b]| ensures init[b][k].i == b {
          assert init[b] == bs[b];
        }
        forall b | 0 <= b < |init| ensures Ordered(init[b]) {
          assert init[b] == bs[b];
        }
      }
      FlattenOrdered(init);
      OrderedAppend(Flatten(init), bs[n - 1], n);
    }
  }

  lemma {:induction false} FlattenContains(bs: seq<seq<Line>>, b: nat, line: Line)
    requires b < |bs| && line in bs[b]
    ensures line in Flatten(bs)
  {
    var n := |bs|;
    if b < n - 1 {
      assert bs[..n - 1][b] == bs[b];
      FlattenContains(bs[..n - 1], b, line);
    }
  }

  lemma {:induction false} FlattenMember(bs: seq<seq<Line>>, line: Line) returns (b: nat)
    requires line in Flatten(bs)
    ensures b < |bs| && line in bs[b]
  {
    var n := |bs|;
    if line in bs[n - 1] {
      b := n - 1;
    } else {
      b := FlattenMember(bs[..n - 1], line);
      assert bs[..n - 1][b] == bs[b];
    }
  }

  /** One more iteration appends its block. */
  lemma UpToStep(ps: seq<Particle>, width: nat, height: nat, pointer: Option<Point>, sqrt: real -> real, i: nat)
    requires i < |ps|
    ensures FrameLinesUpTo(ps, width, height, pointer, sqrt, i + 1)
         == FrameLinesUpTo(ps, width, height, pointer, sqrt, i) + ParticleLines(ps, width, height, pointer, sqrt, i)
  {
    var bs := Iterations(ps, width, height, pointer, sqrt, i + 1);
    assert bs[..i] == Iterations(ps, width, height, pointer, sqrt, i);
  }

  lemma ParticleLinesHasLinks(ps: seq<Particle>, width: nat, height: nat, pointer: Option<Point>,
                              sqrt: real -> real, m: nat)
    requires m < |ps|
    ensures forall j :: m < j < |ps| && Linked(ps, width, height, m, j) ==>
              ExpectedLink(ps, width, height, sqrt, m, j) in ParticleLines(ps, width, height, pointer, sqrt, m)
  {
    var a := Moved(ps[m], width, height);
    var pairs := PairLines(ps, m, a, m + 1, sqrt);
    PairLinesFacts(ps, m, a, m + 1, sqrt);
    forall j | m < j < |ps| && Linked(ps, width, height, m, j)
      ensures ExpectedLink(ps, width, height, sqrt, m, j) in pairs
    {
      assert Close(a, ps[j]);
    }
  }

  lemma ParticleLinesHasPointerLink(ps: seq<Particle>, width: nat, height: nat, pointer: Option<Point>,
                                    sqrt: real -> real, m: nat)
    requires m < |ps|
    ensures NearPointer(ps, width, height, pointer, m) ==>
              ExpectedPointerLink(ps, width, height, pointer, sqrt, m) in ParticleLines(ps, width, height, pointer, sqrt, m)
  {
    var a := Moved(ps[m], width, height);
    var pairs := PairLines(ps, m, a, m + 1, sqrt);
    var ptr := PointerLines(m, a, pointer, sqrt);
    PointerLinesFacts(ps, width, height, pointer, sqrt, m);
    if NearPointer(ps, width, height, pointer, m) {
      assert ptr[0] in pairs + ptr;
    }
  }

  // ---------------------------------------------------------------------
  // What one frame draws

  /** Every line a frame draws is one it is meant to draw: a link between particles
    * `i < j` that are within 100 pixels, from `i` (moved) to `j` (not yet moved),
    * or a line from a particle to the pointer within 150 pixels. */
  lemma FrameLinesSound(ps: seq<Particle>, width: nat, height: nat, pointer: Option<Point>, sqrt: real -> real)
    ensures forall line :: line in FrameLines(ps, width, height, pointer, sqrt) ==>
              Expected(ps, width, height, pointer, sqrt, line)
  {
    var bs := Iterations(ps, width, height, pointer, sqrt, |ps|);
    forall line | line in Flatten(bs)
      ensures Expected(ps, width, height, pointer, sqrt, line)
    {
      var b := FlattenMember(bs, line);
      ParticleLinesSound(ps, width, height, pointer, sqrt, b);
    }
  }

  /** A link between `i < j` is drawn if and only if they are within 100 pixels;
    * a pointer line for `i` if and only if the pointer is within 150 pixels. */
  lemma FrameLinesComplete(ps: seq<Particle>, width: nat, height: nat, pointer: Option<Point>, sqrt: real -> real)
    ensures forall i, j :: 0 <= i < j < |ps| ==>
              (ExpectedLink(ps, width, height, sqrt, i, j) in FrameLines(ps, width, height, pointer, sqrt)
               <==> Linked(ps, width, height, i, j))
    ensures forall i :: 0 <= i < |ps| && pointer.Some? ==>
              (ExpectedPointerLink(ps, width, height, pointer, sqrt, i) in FrameLines(ps, width, height, pointer, sqrt)
               <==> NearPointer(ps, width, height, pointer, i))
  {
    var ls := FrameLines(ps, width, height, pointer, sqrt);
    var bs := Iterations(ps, width, height, pointer, sqrt, |ps|);
    FrameLinesSound(ps, width, height, pointer, sqrt);
    forall i, j | 0 <= i < j < |ps| && Linked(ps, width, height, i, j)
      ensures ExpectedLink(ps, width, height, sqrt, i, j) in ls
    {
      ParticleLinesHasLinks(ps, width, height, pointer, sqrt, i);
      FlattenContains(bs, i, ExpectedLink(ps, width, height, sqrt, i, j));
    }
    forall i | 0 <= i < |ps| && NearPointer(ps, width, height, pointer, i)
      ensures ExpectedPointerLink(ps, width, height, pointer, sqrt, i) in ls
    {
      ParticleLinesHasPointerLink(ps, width, height, pointer, sqrt, i);
      FlattenContains(bs, i, ExpectedPointerLink(ps, width, height, pointer, sqrt, i));
    }
    forall i, j | 0 <= i < j < |ps| && ExpectedLink(ps, width, height, sqrt, i, j) in ls
      ensures Linked(ps, width, height, i, j)
    {
      assert Expected(ps, width, height, pointer, sqrt, ExpectedLink(ps, width, height, sqrt, i, j));
    }
    forall i | 0 <= i < |ps| && pointer.Some? && ExpectedPointerLink(ps, width, height, pointer, sqrt, i) in ls
      ensures NearPointer(ps, width, height, pointer, i)
    {
      assert Expected(ps, width, height, pointer, sqrt, ExpectedPointerLink(ps, width, height, pointer, sqrt, i));
    }
  }

  /** Two lines of one frame with the same particle, the same kind and (for links)
    * the same partner are the same line: no pair is drawn twice. */
  predicate SameKey(a: Line, b: Line) {
    a.i == b.i && a.ParticleLink? == b.ParticleLink? && (a.ParticleLink? ==> a.j == b.j)
  }

  /** Lines come in drawing order, so no pair is linked twice and no particle
    * gets two pointer lines in one frame. */
  lemma FrameLinesOnce(ps: seq<Particle>, width: nat, height: nat, pointer: Option<Point>, sqrt: real -> real)
    ensures Ordered(FrameLines(ps, width, height, pointer, sqrt))
    ensures forall k1, k2 :: 0 <= k1 < |FrameLines(ps, width, height, pointer, sqrt)|
              && 0 <= k2 < |FrameLines(ps, width, height, pointer, sqrt)|
              && SameKey(FrameLines(ps, width, height, pointer, sqrt)[k1], FrameLines(ps, width, height, pointer, sqrt)[k2])
              ==> k1 == k2
  {
    var bs: seq<seq<Line>> := Iterations(ps, width, height, pointer, sqrt, |ps|);
    forall b | 0 <= b < |bs|
      ensures (forall k :: 0 <= k < |bs[b]| ==> bs[b][k].i == b) && Ordered(bs[b])
    {
      ParticleLinesIndex(ps, width, height, pointer, sqrt, b);
      ParticleLinesOrdered(ps, width, height, pointer, sqrt, b);
    }
    FlattenOrdered(bs);
  }

  lemma LinkOpacityBelowDistance(d2: real, sqrt: real -> real)
    requires IsSqrt(sqrt) && 0.0 <= d2 < LinkDistance * LinkDistance
    ensures 0.0 < LinkOpacity(sqrt(d2)) <= 0.1
  {
    RootBelow(sqrt(d2), d2, LinkDistance);
  }

  lemma PointerOpacityInRadius(d2: real, sqrt: real -> real)
    requires IsSqrt(sqrt) && 0.0 <= d2 < PointerRadius * PointerRadius
    ensures 0.0 < PointerOpacity(sqrt(d2)) <= 0.2
  {
    RootBelow(sqrt(d2), d2, PointerRadius);
  }

  lemma ExpectedOpacity(ps: seq<Particle>, width: nat, height: nat, pointer: Option<Point>,
                        sqrt: real -> real, line: Line)
    requires IsSqrt(sqrt) && Expected(ps, width, height, pointer, sqrt, line)
    ensures if line.ParticleLink? then 0.0 < line.opacity <= 0.1 else 0.0 < line.opacity <= 0.2
  {
    match line
    case ParticleLink(i, j, from, to, _) =>
      LinkOpacityBelowDistance(DistSq(from, to), sqrt);
    case PointerLink(i, from, to, _) =>
      PointerOpacityInRadius(DistSq(from, to), sqrt);
  }

  /** With an exact square root, links have opacity in (0, 0.1] and pointer lines in (0, 0.2]. */
  lemma FrameLinesOpacity(ps: seq<Particle>, width: nat, height: nat, pointer: Option<Point>, sqrt: real -> real)
    requires IsSqrt(sqrt)
    ensures forall line :: line in FrameLines(ps, width, height, pointer, sqrt) ==>
              if line.ParticleLink? then 0.0 < line.opacity <= 0.1 else 0.0 < line.opacity <= 0.2
  {
    var ls := FrameLines(ps, width, height, pointer, sqrt);
    FrameLinesSound(ps, width, height, pointer, sqrt);
    forall line | line in ls
      ensures if line.ParticleLink? then 0.0 < line.opacity <= 0.1 else 0.0 < line.opacity <= 0.2
    {
      ExpectedOpacity(ps, width, height, pointer, sqrt, line);
    }
  }

  /** Without a pointer a frame draws no pointer line. */
  lemma NoPointerNoPointerLines(ps: seq<Particle>, width: nat, height: nat, sqrt: real -> real)
    ensures forall line :: line in FrameLines(ps, width, height, None, sqrt) ==> line.ParticleLink?
  {
    FrameLinesSound(ps, width, height, None, sqrt);
  }

  /** A particle 75 pixels from the pointer gets a line of opacity 0.1. */
  lemma PointerLineAtHalfRadius(i: nat, a: Particle, m: Point, sqrt: real -> real)
    requires IsSqrt(sqrt)
    requires DistSq(Position(a), m) == 75.0 * 75.0
    ensures PointerLines(i, a, Some(m), sqrt) == [PointerLink(i, Position(a), m, 0.1)]
  {
    var d2 := DistSq(Position(a), m);
    RootUnique(sqrt(d2), 75.0);
  }
}
