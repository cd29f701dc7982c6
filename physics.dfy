/// The physics rules World::singleDetect and World::detect apply each tick
/// (src/world.cpp), as functions of the entity's or particle's state: the
/// column an entity stands on, snapping to the ground, gravity with its
/// cut-off at vertical speed -2, the world-edge clamps, and landing and
/// moving particles. The World methods apply these to the objects.

module Physics {
  import opened Common
  import opened Terrain

  /** Conversion of a float to an int: truncation toward zero. */
  function Trunc(r: real): (n: int)
    ensures 0.0 <= r ==> n as real <= r < n as real + 1.0
    ensures r < 0.0 ==> n as real - 1.0 < r <= n as real
  {
    if r >= 0.0 then r.Floor else -((-r).Floor)
  }

  /** The column an entity of the given width at x stands on:
      (x + width / 2 - worldStart) / HLINE truncated to an int, raised to 0
      when negative and lowered to lineCount - 1 when past the end. */
  function ColumnIndex(x: real, width: real, worldStart: int, lineCount: nat): (i: nat)
    requires 0 < lineCount
    ensures i < lineCount
  {
    var l := Trunc((x + width / 2.0 - worldStart as real) / (Hline as real));
    var l0 := if l < 0 then 0 else l;
    if l0 > lineCount - 1 then lineCount - 1 else l0
  }

  lemma MulMono(a: real, b: real, h: real)
    requires a <= b && 0.0 < h
    ensures a * h <= b * h
  {
    assert b * h - a * h == (b - a) * h;
  }

  lemma MulLess(a: real, b: real, h: real)
    requires 0.0 < h
    ensures a < b <==> a * h < b * h
  {
    assert b * h - a * h == (b - a) * h;
    if a < b {
      assert 0.0 < (b - a) * h;
    } else {
      assert (b - a) * h <= 0.0 by { MulMono(b - a, 0.0, h); }
    }
  }

  lemma QuotientBounds(d: real, i: int)
    requires i as real <= d / (Hline as real) < i as real + 1.0
    ensures (i as real) * (Hline as real) <= d < (i as real) * (Hline as real) + (Hline as real)
  {
    ScaledBounds(d, i as real, Hline as real);
  }

  lemma ScaledBounds(d: real, a: real, h: real)
    requires 0.0 < h
    requires a <= d / h < a + 1.0
    ensures a * h <= d < a * h + h
  {
    BelowQuotient(d, a, h);
    AboveQuotient(d, a + 1.0, h);
    Distribute(a, h);
  }

  lemma BelowQuotient(d: real, a: real, h: real)
    requires 0.0 < h && a <= d / h
    ensures a * h <= d
  {
    var q := d / h;
    assert q * h == d;
    MulMono(a, q, h);
  }

  lemma AboveQuotient(d: real, c: real, h: real)
    requires 0.0 < h && d / h < c
    ensures d < c * h
  {
    var q := d / h;
    assert q * h == d;
    MulLess(q, c, h);
  }

  lemma Distribute(a: real, h: real)
    ensures (a + 1.0) * h == a * h + h
  {
  }

  /** When the entity's centre lies over the terrain, the column found is the
      one under the centre: column i spans [worldStart + i HLINE,
      worldStart + (i + 1) HLINE). */
  lemma ColumnUnderCentre(x: real, width: real, worldStart: int, lineCount: nat)
    requires 0 < lineCount
    requires var c := x + width / 2.0;
             worldStart as real <= c < worldStart as real + (lineCount as real) * (Hline as real)
    ensures var i := ColumnIndex(x, width, worldStart, lineCount);
            var c := x + width / 2.0;
            worldStart as real + (i as real) * (Hline as real) <= c
            < worldStart as real + (i as real) * (Hline as real) + (Hline as real)
  {
    var h := Hline as real;
    var d := x + width / 2.0 - worldStart as real;
    var l := Trunc(d / h);
    assert 0.0 <= d / h;
    QuotientBounds(d, l);
    assert 0 <= l;
    assert (l as real) * h <= d < (lineCount as real) * h;
    MulLess(l as real, lineCount as real, h);
    assert l < lineCount;
    assert Trunc((x + width / 2.0 - worldStart as real) / (Hline as real)) == l;
  }

  /** The state of an entity that the physics step reads and writes. */
  datatype Body = Body(loc: Vec2, vel: Vec2, ground: bool)

  /** Structures above this height are put back on the ground. */
  const StructureCeiling: real := 2000.0

  /** Gravity applies only while the vertical speed is above this. */
  const FallCutoff: real := -2.0

  /** A structure high above the ground is pinned to it (and the step ends
      there, without the edge clamps). */
  predicate Pinned(b: Body, isStructure: bool, h: real) {
    !(b.loc.y < h) && isStructure && b.loc.y > StructureCeiling
  }

  /** The vertical phase of the step on ground height h: an entity below
      ground is lifted to h - .001 deltaTime, marked on the ground, and its
      vertical speed zeroed; otherwise gravity lowers the vertical speed by
      .003 deltaTime while it is above -2. */
  function Settle(b: Body, h: real, dt: real): (r: Body)
    ensures r.loc.x == b.loc.x && r.vel.x == b.vel.x
    ensures r.ground == (b.ground || b.loc.y < h)
  {
    if b.loc.y < h then Body(Vec2(b.loc.x, h - 0.001 * dt), Vec2(b.vel.x, 0.0), true)
    else if b.vel.y > FallCutoff then b.(vel := Vec2(b.vel.x, b.vel.y - 0.003 * dt))
    else b
  }

  /** The horizontal phase: past the left edge the entity is put at
      worldStart + HLINE / 2 (integer halving of HLINE), past the right
      edge at -worldStart - width - HLINE, with its horizontal speed zeroed
      in both cases. */
  function EdgeClamp(b: Body, width: real, worldStart: int): (r: Body)
    ensures r.loc.y == b.loc.y && r.vel.y == b.vel.y && r.ground == b.ground
    ensures r.vel.x == b.vel.x || r.vel.x == 0.0
  {
    var ws, hl := worldStart as real, Hline as real;
    if b.loc.x < ws then
      b.(loc := Vec2(ws + (Hline / 2) as real, b.loc.y), vel := Vec2(0.0, b.vel.y))
    else if b.loc.x + width + hl > ws + ws * -2.0 then
      b.(loc := Vec2(ws + ws * -2.0 - width - hl, b.loc.y), vel := Vec2(0.0, b.vel.y))
    else b
  }

  /** The step singleDetect applies to a living entity that is not a
      trigger mob, standing over ground height h. */
  function LiveStep(b: Body, width: real, isStructure: bool, h: real, worldStart: int, dt: real): (r: Body)
    ensures !Pinned(b, isStructure, h) ==> r.loc.y == Settle(b, h, dt).loc.y && r.vel.y == Settle(b, h, dt).vel.y
    ensures r.ground == (b.ground || b.loc.y < h || Pinned(b, isStructure, h))
  {
    if Pinned(b, isStructure, h) then Body(Vec2(b.loc.x, h), Vec2(b.vel.x, 0.0), true)
    else EdgeClamp(Settle(b, h, dt), width, worldStart)
  }

  /** An entity below the ground ends just above it minus the tick's sink,
      on the ground and with no vertical speed. */
  lemma SnapsToGround(b: Body, width: real, isStructure: bool, h: real, worldStart: int, dt: real)
    requires b.loc.y < h
    ensures var r := LiveStep(b, width, isStructure, h, worldStart, dt);
            r.loc.y == h - 0.001 * dt && r.ground && r.vel.y == 0.0
  {
  }

  /** Above the ground, gravity only ever lowers the vertical speed, by
      .003 deltaTime, and only while it is above -2: the speed never ends
      below min(vel.y, -2 - .003 deltaTime), and a speed at or below -2 is
      kept. The height is not changed by the step. */
  lemma GravityCutoff(b: Body, width: real, isStructure: bool, h: real, worldStart: int, dt: real)
    requires !(b.loc.y < h) && !Pinned(b, isStructure, h) && 0.0 <= dt
    ensures var r := LiveStep(b, width, isStructure, h, worldStart, dt);
            && r.loc.y == b.loc.y
            && r.vel.y <= b.vel.y
            && (b.vel.y > FallCutoff ==> r.vel.y == b.vel.y - 0.003 * dt && r.vel.y > FallCutoff - 0.003 * dt)
            && (b.vel.y <= FallCutoff ==> r.vel.y == b.vel.y)
            && r.ground == b.ground
  {
  }

  /** A structure above y 2000 is put on the ground at h, at rest
      vertically, and keeps its x even past an edge. */
  lemma StructurePinned(b: Body, width: real, h: real, worldStart: int, dt: real)
    requires Pinned(b, true, h)
    ensures var r := LiveStep(b, width, true, h, worldStart, dt);
            r.loc == Vec2(b.loc.x, h) && r.vel.y == 0.0 && r.ground && r.vel.x == b.vel.x
  {
  }

  /** In a world at least HLINE / 2 + width + HLINE wide, the step leaves
      every entity that is not pinned within [worldStart, -worldStart -
      width - HLINE], and an entity already there keeps its x and
      horizontal speed. */
  lemma StaysWithinEdges(b: Body, width: real, isStructure: bool, h: real, worldStart: int, dt: real)
    requires !Pinned(b, isStructure, h)
    requires 0.0 <= width
    requires (Hline / 2) as real + width + (Hline as real) <= (TheWidth(worldStart) as real)
    ensures var r := LiveStep(b, width, isStructure, h, worldStart, dt);
            var ws := worldStart as real;
            ws <= r.loc.x && r.loc.x + width + (Hline as real) <= -ws
    ensures var ws := worldStart as real;
            ws <= b.loc.x && b.loc.x + width + (Hline as real) <= -ws ==>
            var r := LiveStep(b, width, isStructure, h, worldStart, dt);
            r.loc.x == b.loc.x && r.vel.x == b.vel.x
  {
  }

  /** Clamping a second time changes nothing once the world is wide enough. */
  lemma EdgeClampIdempotent(b: Body, width: real, worldStart: int)
    requires 0.0 <= width
    requires (Hline / 2) as real + width + (Hline as real) <= (TheWidth(worldStart) as real)
    ensures EdgeClamp(EdgeClamp(b, width, worldStart), width, worldStart) == EdgeClamp(b, width, worldStart)
  {
  }

  // ---------------------------------------------------------------------
  // Particles

  /** A particle (class Particles), stored by value in the world. */
  datatype Particle = Particle(
    loc: Vec2,
    velx: real,
    vely: real,
    width: real,
    height: real,
    color: Color,
    duration: int,
    canMove: bool,
    gravity: bool,
    behind: bool,
    fountain: bool)

  /** detect's rule for one particle over ground height h: below the ground
      it is put on it, stopped and frozen; otherwise gravity lowers its
      vertical speed by .003 deltaTime when it has gravity and the speed is
      above -2. */
  function Land(p: Particle, h: real, dt: real): (r: Particle)
    ensures r.width == p.width && r.loc.x == p.loc.x
  {
    if p.loc.y < h then p.(loc := Vec2(p.loc.x, h), vely := 0.0, velx := 0.0, canMove := false)
    else if p.gravity && p.vely > FallCutoff then p.(vely := p.vely - 0.003 * dt)
    else p
  }

  /** A particle below the ground is put on it, stopped and frozen, and
      later landings on the same ground never move it again. */
  lemma LandingIsFinal(p: Particle, h: real, dt: real)
    requires p.loc.y < h
    ensures var r := Land(p, h, dt);
            && !r.canMove && r.velx == 0.0 && r.vely == 0.0 && r.loc == Vec2(p.loc.x, h)
            && Land(r, h, dt).loc == r.loc && !Land(r, h, dt).canMove
  {
  }

  /** The rectangle of a fountain's basin test. */
  datatype Basin = Basin(x: real, y: real, width: real, height: real)

  /** A moving particle at this position is caught by the fountain: between
      its left and right edges and no higher than a quarter of its height
      above its base. */
  predicate InBasin(p: Particle, b: Basin) {
    b.x <= p.loc.x <= b.x + b.width && p.loc.y <= b.y + b.height * 0.25
  }

  predicate InAnyBasin(p: Particle, basins: seq<Basin>) {
    exists k :: 0 <= k < |basins| && InBasin(p, basins[k])
  }

  /** update's move for one particle: position advanced by its velocity
      times delta. */
  function Moved(p: Particle, delta: real): (r: Particle)
    ensures r.(loc := p.loc) == p
    ensures delta == 0.0 ==> r == p
  {
    p.(loc := Vec2(p.loc.x + p.velx * delta, p.loc.y + p.vely * delta))
  }

  /** The particles kept, in order: those for which keep holds. */
  function Filter<T>(s: seq<T>, keep: T -> bool): (r: seq<T>)
    ensures |r| <= |s|
    ensures forall x :: x in r ==> x in s && keep(x)
    ensures forall x :: x in s && keep(x) ==> x in r
  {
    if |s| == 0 then []
    else if keep(s[|s| - 1]) then Filter(s[..|s| - 1], keep) + [s[|s| - 1]]
    else Filter(s[..|s| - 1], keep)
  }

  /** Filtering a concatenation filters each part, so the order of what is
      kept is the order of the input. */
  lemma {:induction false} FilterAppend<T>(a: seq<T>, b: seq<T>, keep: T -> bool)
    ensures Filter(a + b, keep) == Filter(a, keep) + Filter(b, keep)
    decreases |b|
  {
    if |b| > 0 {
      var last := b[|b| - 1];
      assert (a + b)[..|a + b| - 1] == a + b[..|b| - 1];
      FilterAppend(a, b[..|b| - 1], keep);
    } else {
      assert a + b == a;
    }
  }

  /** Filtering twice keeps what filtering once keeps. */
  lemma {:induction false} FilterIdempotent<T>(s: seq<T>, keep: T -> bool)
    ensures Filter(Filter(s, keep), keep) == Filter(s, keep)
  {
    if |s| > 0 {
      FilterIdempotent(s[..|s| - 1], keep);
      var f := Filter(s[..|s| - 1], keep);
      if keep(s[|s| - 1]) {
        FilterAppend(f, [s[|s| - 1]], keep);
        assert Filter([s[|s| - 1]], keep) == [s[|s| - 1]] by {
          assert [s[|s| - 1]][..0] == [];
        }
      }
    }
  }

  /** The second loop of update on particles that survived kill: each
      moving particle is moved, then dropped when it falls in a fountain's
      basin; particles that cannot move are kept as they are. */
  function MoveAll(ps: seq<Particle>, delta: real, basins: seq<Basin>): (r: seq<Particle>)
    ensures |r| <= |ps|
    ensures forall k :: 0 <= k < |r| ==> !(r[k].canMove && InAnyBasin(r[k], basins))
  {
    if |ps| == 0 then []
    else
      var rest := MoveAll(ps[..|ps| - 1], delta, basins);
      var p := ps[|ps| - 1];
      if !p.canMove then rest + [p]
      else if InAnyBasin(Moved(p, delta), basins) then rest
      else rest + [Moved(p, delta)]
  }

  /** Particles that cannot move are never dropped by the move: each of them
      is still there afterwards, unchanged. */
  lemma {:induction false} StillParticlesKept(ps: seq<Particle>, delta: real, basins: seq<Basin>, p: Particle)
    requires p in ps && !p.canMove
    ensures p in MoveAll(ps, delta, basins)
  {
    var last := ps[|ps| - 1];
    if p != last {
      assert p in ps[..|ps| - 1] by {
        var k :| 0 <= k < |ps| && ps[k] == p;
        assert k < |ps| - 1;
        assert ps[..|ps| - 1][k] == p;
      }
      StillParticlesKept(ps[..|ps| - 1], delta, basins, p);
    }
  }

  /** Moving a concatenation moves each part, so the survivors keep the
      order of the input. */
  lemma {:induction false} MoveAllAppend(a: seq<Particle>, b: seq<Particle>, delta: real, basins: seq<Basin>)
    ensures MoveAll(a + b, delta, basins) == MoveAll(a, delta, basins) + MoveAll(b, delta, basins)
    decreases |b|
  {
    if |b| > 0 {
      assert (a + b)[..|a + b| - 1] == a + b[..|b| - 1];
      MoveAllAppend(a, b[..|b| - 1], delta, basins);
    } else {
      assert a + b == a;
    }
  }

  /** A moving particle that does not end up in a basin survives the move,
      at its moved position. */
  lemma {:induction false} MovedKept(ps: seq<Particle>, delta: real, basins: seq<Basin>, p: Particle)
    requires p in ps && p.canMove && !InAnyBasin(Moved(p, delta), basins)
    ensures Moved(p, delta) in MoveAll(ps, delta, basins)
  {
    var last := ps[|ps| - 1];
    if p != last {
      assert p in ps[..|ps| - 1] by {
        var k :| 0 <= k < |ps| && ps[k] == p;
        assert k < |ps| - 1;
        assert ps[..|ps| - 1][k] == p;
      }
      MovedKept(ps[..|ps| - 1], delta, basins, p);
    }
  }

  /** Every survivor of the move is either a particle that cannot move,
      unchanged, or a moving particle at its moved position. */
  lemma {:induction false} MoveAllFrom(ps: seq<Particle>, delta: real, basins: seq<Basin>, q: Particle)
    requires q in MoveAll(ps, delta, basins)
    ensures (q in ps && !q.canMove) || exists p :: p in ps && p.canMove && q == Moved(p, delta)
  {
    var front := ps[..|ps| - 1];
    var p := ps[|ps| - 1];
    assert ps == front + [p];
    if q in MoveAll(front, delta, basins) {
      MoveAllFrom(front, delta, basins, q);
      if q in front && !q.canMove {
      } else {
        var p' :| p' in front && p'.canMove && q == Moved(p', delta);
        assert p' in ps;
      }
    }
  }

  /** detect's landing pass over all particles, each on the column under it. */
  function LandAll(ps: seq<Particle>, cols: seq<Column>, worldStart: int, dt: real): (r: seq<Particle>)
    requires 0 < |cols|
    ensures |r| == |ps|
    ensures forall k :: 0 <= k < |ps| ==>
      r[k] == Land(ps[k], cols[ColumnIndex(ps[k].loc.x, ps[k].width, worldStart, |cols|)].groundHeight, dt)
  {
    seq(|ps|, k requires 0 <= k < |ps| =>
      Land(ps[k], cols[ColumnIndex(ps[k].loc.x, ps[k].width, worldStart, |cols|)].groundHeight, dt))
  }
}
