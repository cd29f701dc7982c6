/// class World (src/world.cpp): the terrain columns, the entity registry
/// (typed vectors plus the flattened `entity` list), particles, lights and
/// villages, and the operations that change them.

module GameWorld {
  import opened Common
  import opened Terrain
  import opened Physics
  import opened Entities
  import opened CText
  import opened SaveFormat

  /** A light: position and colour. */
  datatype Light = Light(loc: Vec2, color: Color)

  /** The most lights a world holds. */
  const MaxLights: nat := 64

  /** What singleDetect did with the entity. */
  datatype DetectOutcome =
    | Removed    // dead and erased from the world's vectors
    | GameOver   // dead and not in the world (the player): the program exits
    | Skipped    // a trigger mob: no physics
    | Stepped    // a living entity moved by the physics step

  /** A structure's basin, as particles see it. */
  function BasinOf(b: Entity): Basin
    reads b
  {
    Basin(b.loc.x, b.loc.y, b.width, b.height)
  }

  /** The basins of the FOUNTAIN structures among bs, in order. */
  function FountainBasins(bs: seq<Entity>): (r: seq<Basin>)
    reads bs
    ensures |r| <= |bs|
  {
    if |bs| == 0 then []
    else
      var b := bs[|bs| - 1];
      FountainBasins(bs[..|bs| - 1]) + (if b.bsub == Fountain then [BasinOf(b)] else [])
  }

  lemma InAnyBasinAppend(p: Particle, a: seq<Basin>, b: seq<Basin>)
    ensures InAnyBasin(p, a + b) <==> InAnyBasin(p, a) || InAnyBasin(p, b)
  {
    if InAnyBasin(p, a + b) {
      var k :| 0 <= k < |a + b| && InBasin(p, (a + b)[k]);
      if k >= |a| {
        assert (a + b)[k] == b[k - |a|];
      } else {
        assert (a + b)[k] == a[k];
      }
    }
    if InAnyBasin(p, a) {
      var k :| 0 <= k < |a| && InBasin(p, a[k]);
      assert (a + b)[k] == a[k];
    }
    if InAnyBasin(p, b) {
      var k :| 0 <= k < |b| && InBasin(p, b[k]);
      assert (a + b)[|a| + k] == b[k];
    }
  }

  /** The grass under a player standing at column ph is pressed, within five
      columns either side; in the air, all grass stands. The last
      GROUND_HILLINESS columns are not touched; in a world of fewer columns
      the bound (int)(size - GROUND_HILLINESS) is negative and no column is. */
  function Flattened(cols: seq<Column>, ph: int, onGround: bool): (r: seq<Column>)
  {
    seq(|cols|, i requires 0 <= i < |cols| =>
      if i < |cols| - GroundHilliness then cols[i].(grassUnpressed := !onGround || !(i < ph + 6 && i > ph - 6))
      else cols[i])
  }

  /** Exactly the columns within five of the player's are pressed, and only
      while the player is on the ground; heights and colours never change. */
  lemma PressedAround(cols: seq<Column>, ph: int, onGround: bool)
    ensures var r := Flattened(cols, ph, onGround);
            && |r| == |cols|
            && (forall i :: 0 <= i < |cols| - GroundHilliness ==>
                 (!r[i].grassUnpressed <==> onGround && ph - 5 <= i <= ph + 5))
            && (forall i :: 0 <= i < |cols| ==>
                 r[i].groundHeight == cols[i].groundHeight && r[i].groundColor == cols[i].groundColor)
            && (forall i :: 0 <= i < |cols| && |cols| - GroundHilliness <= i ==> r[i] == cols[i])
  {
  }

  /** A world of at most GROUND_HILLINESS columns is left exactly as it was. */
  lemma ShortWorldUntouched(cols: seq<Column>, ph: int, onGround: bool)
    requires |cols| <= GroundHilliness
    ensures Flattened(cols, ph, onGround) == cols
  {
  }

  class Village {
    var name: string
    var startX: real
    var endX: real
    /** Whether the player was inside the village at the last check (`in`). */
    var entered: bool
    var build: seq<Entity>

    /** A village of world w starts with the inverted interval
        [getTheWidth() / 2, -getTheWidth() / 2], so that the first structure
        added sets both ends. */
    constructor (n: string, w: World)
      ensures name == n && !entered && build == []
      ensures startX == (TheWidth(w.worldStart) as real) / 2.0 && endX == -startX
    {
      var half := (TheWidth(w.worldStart) as real) / 2.0;
      name := n;
      startX := half;
      endX := -half;
      entered := false;
      build := [];
    }

    /** Adding a structure to the village widens the interval to cover it. */
    method AddBuilding(b: Entity)
      modifies this`build, this`startX, this`endX
      ensures build == old(build) + [b]
      ensures (startX, endX) == Widen(old(startX), old(endX), Span(b.loc.x, b.width))
    {
      build := build + [b];
      if b.loc.x < startX {
        startX := b.loc.x;
      }
      if b.loc.x + b.width > endX {
        endX := b.loc.x + b.width;
      }
    }
  }

  /** A structure's horizontal extent: left edge and width. */
  datatype Span = Span(x: real, width: real)

  function Widen(start: real, end: real, s: Span): (real, real)
  {
    (if s.x < start then s.x else start, if s.x + s.width > end then s.x + s.width else end)
  }

  /** The interval after adding the structures of spans in order. */
  function WidenAll(start: real, end: real, spans: seq<Span>): (r: (real, real))
  {
    if |spans| == 0 then (start, end)
    else
      var p := WidenAll(start, end, spans[..|spans| - 1]);
      Widen(p.0, p.1, spans[|spans| - 1])
  }

  /** After its structures are added, the village interval covers every one
      of them, and each end is either where it started or the edge of one of
      the structures: the interval is the smallest one containing the
      initial interval's ends and all the structures. */
  lemma {:induction false} VillageCovers(start: real, end: real, spans: seq<Span>)
    ensures var r := WidenAll(start, end, spans);
            && r.0 <= start && end <= r.1
            && (forall i :: 0 <= i < |spans| ==> r.0 <= spans[i].x && spans[i].x + spans[i].width <= r.1)
            && (r.0 == start || exists i :: 0 <= i < |spans| && r.0 == spans[i].x)
            && (r.1 == end || exists i :: 0 <= i < |spans| && r.1 == spans[i].x + spans[i].width)
  {
    if |spans| > 0 {
      var init := spans[..|spans| - 1];
      VillageCovers(start, end, init);
      var r := WidenAll(start, end, spans);
      var p := WidenAll(start, end, init);
      forall i | 0 <= i < |spans| ensures r.0 <= spans[i].x && spans[i].x + spans[i].width <= r.1 {
        if i < |spans| - 1 {
          assert spans[i] == init[i];
        }
      }
      if r.0 != start && r.0 != spans[|spans| - 1].x {
        var i :| 0 <= i < |init| && p.0 == init[i].x;
        assert r.0 == spans[i].x;
      }
      if r.1 != end && r.1 != spans[|spans| - 1].x + spans[|spans| - 1].width {
        var i :| 0 <= i < |init| && p.1 == init[i].x + init[i].width;
        assert r.1 == spans[i].x + spans[i].width;
      }
    }
  }

  /** A village whose interval is still inverted is never entered. */
  lemma EmptyVillageNeverEntered(start: real, end: real, px: real)
    requires end <= start
    ensures !(px > start && px < end)
  {
  }

  /** Whether the player at px is inside village v. */
  predicate InsideVillage(v: Village, px: real)
    reads v
  {
    px > v.startX && px < v.endX
  }

  /** The names of the villages the player enters at px, in order: inside
      now and not inside at the last check. */
  function Greeted(vs: seq<Village>, px: real): (r: seq<string>)
    reads vs
    ensures |r| <= |vs|
  {
    if |vs| == 0 then []
    else
      var v := vs[|vs| - 1];
      Greeted(vs[..|vs| - 1], px) + (if InsideVillage(v, px) && !v.entered then [v.name] else [])
  }

  class World {
    var worldData: seq<Column>
    var lineCount: nat
    var worldStart: int
    var toLeft: Option<string>
    var toRight: Option<string>
    var build: seq<Entity>
    var mob: seq<Entity>
    var npc: seq<Entity>
    var merchant: seq<Entity>
    var objects: seq<Entity>
    var entity: seq<Entity>
    var particles: seq<Particle>
    var light: seq<Light>
    var village: seq<Village>

    /** How the vectors relate: `entity` and the typed vectors hold no
        duplicates; structures, NPCs (but not merchants) and objects are all
        in `entity`; merchants are also NPCs; each typed vector holds its own
        kind; the player is never in `entity`. Dead mobs and dead merchants
        are erased from `entity` only, so mobs and merchants need not be in
        it. */
    predicate Registered()
      reads this
    {
      && NoDup(entity) && NoDup(build) && NoDup(npc) && NoDup(mob) && NoDup(objects) && NoDup(village)
      && (forall b :: b in build ==> b.kind == StructureKind && b in entity)
      && (forall n :: n in npc ==> n.kind == MerchantKind || (n.kind == NpcKind && n in entity))
      && (forall m :: m in merchant ==> m.kind == MerchantKind && m in npc)
      && (forall m :: m in mob ==> m.kind == MobKind)
      && (forall o :: o in objects ==> o.kind == ObjectKind && o in entity)
      && (forall e :: e in entity ==> e.kind != PlayerKind)
    }

    /** World(): no links to neighbouring worlds and nothing in it. The
        column count and worldStart are left unset until generate. */
    constructor ()
      ensures toLeft == None && toRight == None
      ensures worldData == [] && build == [] && mob == [] && npc == [] && merchant == []
      ensures objects == [] && entity == [] && particles == [] && light == [] && village == []
      ensures Registered()
    {
      toLeft, toRight := None, None;
      worldData := [];
      build, mob, npc, merchant, objects, entity := [], [], [], [], [], [];
      particles, light, village := [], [], [];
    }

    /** generate(width): rejects widths that are not positive as a signed
        int (UserError, which changes nothing here); otherwise lays out
        width + GROUND_HILLINESS columns as Terrain.Generated describes and
        sets worldStart. `used` is how many values of the rand stream were
        drawn. */
    method Generate(width: nat, rand: nat -> nat) returns (ok: bool, used: nat)
      requires width + GroundHilliness < Two32
      modifies this`worldData, this`lineCount, this`worldStart
      ensures ok <==> 0 < width < 0x8000_0000
      ensures ok ==> && worldData == Generated(width + GroundHilliness, rand)
                     && lineCount == width + GroundHilliness
                     && worldStart == WorldStartFor(width)
                     && used == AnchorCount(width + GroundHilliness) + 3 * (width + GroundHilliness)
      ensures !ok ==> worldData == old(worldData) && lineCount == old(lineCount)
                      && worldStart == old(worldStart) && used == 0
    {
      if width == 0 || width >= 0x8000_0000 {
        return false, 0;
      }
      var size := width + GroundHilliness;
      var seeded, anchors := SeedAnchors(size, rand);
      worldData := SweepColumns(seeded, size, rand, anchors);
      lineCount := size;
      var h := U32(U32(width - GroundHilliness) * Hline) / 2;
      worldStart := I32(U32(h * (Two32 - 1)));
      return true, anchors + 3 * size;
    }

    /** addHole(start, end): the height of columns start..end-1 becomes 0. */
    method AddHole(start: nat, end: nat)
      requires end <= |worldData|
      modifies this`worldData
      ensures worldData == Dug(old(worldData), start, end)
    {
      var i := start;
      while i < end
        invariant |worldData| == |old(worldData)|
        invariant start <= i && (i <= end || i == start)
        invariant forall k :: 0 <= k < |worldData| ==>
          worldData[k] == (if start <= k < i then old(worldData)[k].(groundHeight := 0.0) else old(worldData)[k])
      {
        worldData := worldData[i := worldData[i].(groundHeight := 0.0)];
        i := i + 1;
      }
      assert forall k :: 0 <= k < |worldData| ==> worldData[k] == Dug(old(worldData), start, end)[k];
    }

    /** The grass-flattening pass of World::draw for a player at px of the
        given width. */
    method FlattenGrass(px: real, pwidth: real, onGround: bool)
      modifies this`worldData
      ensures worldData == Flattened(old(worldData), Trunc((px + pwidth / 2.0 - worldStart as real) / (Hline as real)), onGround)
    {
      var ph := Trunc((px + pwidth / 2.0 - worldStart as real) / (Hline as real));
      var n := if GroundHilliness <= |worldData| then |worldData| - GroundHilliness else 0;
      for i := 0 to n
        invariant |worldData| == |old(worldData)|
        invariant forall k :: 0 <= k < |worldData| ==>
          worldData[k] == if k < i then Flattened(old(worldData), ph, onGround)[k] else old(worldData)[k]
      {
        if onGround {
          worldData := worldData[i := worldData[i].(grassUnpressed := !(i < ph + 6 && i > ph - 6))];
        } else {
          worldData := worldData[i := worldData[i].(grassUnpressed := true)];
        }
      }
    }

    method AddStructure(sub: BuildSub, x: real, y: real, tex: string, inside: string, shape: Shape) returns (b: Entity)
      requires Registered()
      modifies this`build, this`entity
      ensures fresh(b) && b.kind == StructureKind && b.bsub == sub && b.loc == Vec2(x, y)
      ensures b.texture == tex && b.inside == inside && b.width == shape.width && b.height == shape.height && b.alive
      ensures build == old(build) + [b] && entity == old(entity) + [b]
      ensures Registered()
    {
      b := new Entity(StructureKind, shape, x, y);
      b.texture := tex;
      b.bsub := sub;
      b.inside := inside;
      build := build + [b];
      entity := entity + [b];
    }

    method AddMob(t: MobSub, x: real, y: real, shape: Shape) returns (m: Entity)
      requires Registered()
      modifies this`mob, this`entity
      ensures fresh(m) && m.kind == MobKind && m.msub == t && m.loc == Vec2(x, y) && !m.hasHey && m.alive
      ensures mob == old(mob) + [m] && entity == old(entity) + [m]
      ensures Registered()
    {
      m := new Entity(MobKind, shape, x, y);
      m.msub := t;
      mob := mob + [m];
      entity := entity + [m];
    }

    /** addMob with a hook function: as AddMob, with the hook attached. */
    method AddMobWithHook(t: MobSub, x: real, y: real, shape: Shape) returns (m: Entity)
      requires Registered()
      modifies this`mob, this`entity
      ensures fresh(m) && m.kind == MobKind && m.msub == t && m.loc == Vec2(x, y) && m.hasHey && m.alive
      ensures mob == old(mob) + [m] && entity == old(entity) + [m]
      ensures Registered()
    {
      m := new Entity(MobKind, shape, x, y);
      m.msub := t;
      m.hasHey := true;
      mob := mob + [m];
      entity := entity + [m];
    }

    method AddNPC(x: real, y: real, shape: Shape) returns (n: Entity)
      requires Registered()
      modifies this`npc, this`entity
      ensures fresh(n) && n.kind == NpcKind && n.loc == Vec2(x, y) && n.alive
      ensures npc == old(npc) + [n] && entity == old(entity) + [n]
      ensures Registered()
    {
      n := new Entity(NpcKind, shape, x, y);
      npc := npc + [n];
      entity := entity + [n];
    }

    /** addMerchant: a merchant is an NPC too, so it goes into `merchant`,
        `npc` and `entity`. */
    method AddMerchant(x: real, y: real, shape: Shape) returns (m: Entity)
      requires Registered()
      modifies this`merchant, this`npc, this`entity
      ensures fresh(m) && m.kind == MerchantKind && m.loc == Vec2(x, y) && m.alive
      ensures merchant == old(merchant) + [m] && npc == old(npc) + [m] && entity == old(entity) + [m]
      ensures Registered()
    {
      m := new Entity(MerchantKind, shape, x, y);
      merchant := merchant + [m];
      npc := npc + [m];
      entity := entity + [m];
    }

    method AddObject(itemName: string, text: string, x: real, y: real, shape: Shape) returns (o: Entity)
      requires Registered()
      modifies this`objects, this`entity
      ensures fresh(o) && o.kind == ObjectKind && o.item == itemName && o.pickupText == text && o.loc == Vec2(x, y)
      ensures objects == old(objects) + [o] && entity == old(entity) + [o]
      ensures Registered()
    {
      o := new Entity(ObjectKind, shape, x, y);
      o.item := itemName;
      o.pickupText := text;
      objects := objects + [o];
      entity := entity + [o];
    }

    /** addParticle: a new moving particle at (x, y); the flags the
        emitters set afterwards start as gravity on, behind and fountain
        off. */
    method AddParticle(x: real, y: real, w: real, h: real, vx: real, vy: real, color: Color, d: int)
      modifies this`particles
      ensures particles == old(particles) + [Particle(Vec2(x, y), vx, vy, w, h, color, d, true, true, false, false)]
    {
      particles := particles + [Particle(Vec2(x, y), vx, vy, w, h, color, d, true, true, false, false)];
    }

    /** addLight: a light is added only while fewer than 64 exist. */
    method AddLight(loc: Vec2, color: Color)
      modifies this`light
      ensures |old(light)| < MaxLights ==> light == old(light) + [Light(loc, color)]
      ensures |old(light)| >= MaxLights ==> light == old(light)
      ensures |old(light)| <= MaxLights ==> |light| <= MaxLights
    {
      if |light| < MaxLights {
        light := light + [Light(loc, color)];
      }
    }

    /** deleteEntities: every entity vector, the particles, the lights and
        the villages end up empty. */
    method DeleteEntities()
      modifies this`mob, this`merchant, this`npc, this`build, this`objects, this`entity
      modifies this`particles, this`light, this`village
      ensures mob == [] && merchant == [] && npc == [] && build == [] && objects == []
      ensures entity == [] && particles == [] && light == [] && village == []
      ensures Registered()
    {
      mob, merchant, npc, build, objects, entity := [], [], [], [], [], [];
      particles, light, village := [], [], [];
    }

    /** setToLeft: the link to the world on the left (None for NULL); the
        new link is returned. */
    method SetToLeft(file: Option<string>) returns (r: Option<string>)
      modifies this`toLeft
      ensures toLeft == file && r == file
    {
      toLeft := file;
      r := toLeft;
    }

    method SetToRight(file: Option<string>) returns (r: Option<string>)
      modifies this`toRight
      ensures toRight == file && r == file
    {
      toRight := file;
      r := toRight;
    }

    /** The npcs, structures and mobs as save writes them and load
        overwrites them. */
    function Snapshot(): Saved
      reads this, npc, build, mob
    {
      SavedOf(npc, build, mob)
    }

    /** save: the text written to the world's .dat file (whose name comes
        from the world's XML file), npc by npc, then structure by
        structure, then mob by mob, then the sentinel. */
    method Save() returns (data: string)
      ensures data == SaveText(Snapshot())
    {
      ghost var s := Snapshot();
      data := SaveNpcs(npc, [], "");
      assert Snapshot() == s;
      ghost var fn := [] + Flat(s.npcs, NpcFields);
      data := SaveBuilds(build, fn, data);
      assert Snapshot() == s;
      ghost var fb := fn + Flat(s.builds, BuildFields);
      data := SaveMobs(mob, fb, data);
      assert Snapshot() == s;
      data := data + Sentinel;
      SaveTextOf(s, fn, fb);
    }

    /** load: the world's .dat file, given as text, read back onto the
        npcs, structures and mobs already in the world, in save's order,
        until the sentinel line, the end of the entities, or a line stoi
        cannot read. */
    method Load(text: string) returns (status: Status)
      requires Registered()
      modifies npc, build, mob
      ensures Loaded(Snapshot(), status) == LoadAll(old(Snapshot()), text)
    {
      Apart();
      Outside(npc);
      Outside(build);
      Outside(mob);
      ghost var s0 := Snapshot();
      assert s0 == old(Snapshot());
      status := LoadInto(npc, build, mob, text, s0);
      assert Snapshot() == SavedOf(npc, build, mob);
    }

    /** No entity is the world itself, so loading into entities leaves the
        world's own fields alone. */
    lemma Outside(es: seq<Entity>)
      ensures forall e: object :: e in es ==> e != this
    {
    }

    /** The typed vectors hold distinct entities. */
    lemma Apart()
      requires Registered()
      ensures NoDup(npc) && NoDup(build) && NoDup(mob)
      ensures Separate(build, npc) && Separate(build, mob) && Separate(mob, npc)
    {
    }

    /** singleDetect(e) for one entity (the player included).
        A dead entity (not alive, or health at most 0) that is in `entity` is
        erased from it and, for structures, NPCs and objects, from its typed
        vector; one that is not (the player) ends the game. A living trigger
        mob is left alone. Any other living entity takes the physics step on
        the column under it. */
    method SingleDetect(e: Entity, dt: real) returns (r: DetectOutcome)
      requires Registered()
      requires e.alive && e.health > 0.0 ==> 0 < lineCount <= |worldData|
      modifies this`build, this`npc, this`objects, this`entity, e`loc, e`vel, e`ground
      ensures Registered()
      ensures old(!e.alive || e.health <= 0.0) ==>
        && e.loc == old(e.loc) && e.vel == old(e.vel) && e.ground == old(e.ground)
        && (if e in old(entity) then
              && r == Removed
              && entity == RemoveFirst(old(entity), e) && e !in entity
              && build == (if e.kind == StructureKind then RemoveFirst(old(build), e) else old(build))
              && npc == (if e.kind == NpcKind then RemoveFirst(old(npc), e) else old(npc))
              && objects == (if e.kind == ObjectKind then RemoveFirst(old(objects), e) else old(objects))
            else
              r == GameOver && entity == old(entity) && build == old(build) && npc == old(npc) && objects == old(objects))
      ensures old(e.alive && e.health > 0.0) ==>
        && entity == old(entity) && build == old(build) && npc == old(npc) && objects == old(objects)
        && (if e.kind == MobKind && e.msub == MsTrigger then
              r == Skipped && e.loc == old(e.loc) && e.vel == old(e.vel) && e.ground == old(e.ground)
            else
              var h := worldData[ColumnIndex(old(e.loc.x), e.width, worldStart, lineCount)].groundHeight;
              r == Stepped &&
              Body(e.loc, e.vel, e.ground) == LiveStep(old(Body(e.loc, e.vel, e.ground)), e.width, e.kind == StructureKind, h, worldStart, dt))
    {
      if !e.alive || e.health <= 0.0 {
        r := RemoveDead(e);
        return;
      }
      if e.kind == MobKind && e.msub == MsTrigger {
        return Skipped;
      }
      var i := ColumnUnder(e.loc.x, e.width);
      var h := worldData[i].groundHeight;
      var pinned := SettleEntity(e, h, dt);
      if !pinned {
        ClampEntity(e);
      }
      return Stepped;
    }

    /** The column under an entity of the given width at x. */
    method ColumnUnder(x: real, width: real) returns (i: nat)
      requires 0 < lineCount
      ensures i == ColumnIndex(x, width, worldStart, lineCount)
    {
      var l := Trunc((x + width / 2.0 - worldStart as real) / (Hline as real));
      if l < 0 {
        l := 0;
      }
      i := l;
      if i > lineCount - 1 {
        i := lineCount - 1;
      }
    }

    /** The vertical phase of singleDetect over ground height h; a
        structure high above the ground is put back on it and the step ends
        there (pinned). */
    method SettleEntity(e: Entity, h: real, dt: real) returns (pinned: bool)
      modifies e`loc, e`vel, e`ground
      ensures pinned == Pinned(old(Body(e.loc, e.vel, e.ground)), e.kind == StructureKind, h)
      ensures pinned ==> Body(e.loc, e.vel, e.ground) == Body(Vec2(old(e.loc.x), h), Vec2(old(e.vel.x), 0.0), true)
      ensures !pinned ==> Body(e.loc, e.vel, e.ground) == Settle(old(Body(e.loc, e.vel, e.ground)), h, dt)
    {
      pinned := false;
      if e.loc.y < h {
        e.loc := Vec2(e.loc.x, h - 0.001 * dt);
        e.ground := true;
        e.vel := Vec2(e.vel.x, 0.0);
      } else {
        if e.kind == StructureKind && e.loc.y > StructureCeiling {
          e.loc := Vec2(e.loc.x, h);
          e.vel := Vec2(e.vel.x, 0.0);
          e.ground := true;
          pinned := true;
        } else if e.vel.y > FallCutoff {
          e.vel := Vec2(e.vel.x, e.vel.y - 0.003 * dt);
        }
      }
    }

    /** The horizontal phase of singleDetect: the entity is kept between
        the world's edges. */
    method ClampEntity(e: Entity)
      modifies e`loc, e`vel
      ensures Body(e.loc, e.vel, e.ground) == EdgeClamp(old(Body(e.loc, e.vel, e.ground)), e.width, worldStart)
    {
      if e.loc.x < worldStart as real {
        e.vel := Vec2(0.0, e.vel.y);
        e.loc := Vec2(worldStart as real + (Hline / 2) as real, e.loc.y);
      } else if e.loc.x + e.width + Hline as real > (worldStart + worldStart * -2) as real {
        e.vel := Vec2(0.0, e.vel.y);
        e.loc := Vec2((worldStart + worldStart * -2) as real - e.width - Hline as real, e.loc.y);
      }
    }

    /** The dead-entity branch of singleDetect. */
    method RemoveDead(e: Entity) returns (r: DetectOutcome)
      requires Registered()
      modifies this`build, this`npc, this`objects, this`entity
      ensures Registered()
      ensures if e in old(entity) then
                && r == Removed
                && entity == RemoveFirst(old(entity), e) && e !in entity
                && build == (if e.kind == StructureKind then RemoveFirst(old(build), e) else old(build))
                && npc == (if e.kind == NpcKind then RemoveFirst(old(npc), e) else old(npc))
                && objects == (if e.kind == ObjectKind then RemoveFirst(old(objects), e) else old(objects))
              else
                r == GameOver && entity == old(entity) && build == old(build) && npc == old(npc) && objects == old(objects)
    {
      var rest, found := EraseFirst(entity, e);
      if !found {
        return GameOver;
      }
      RemoveFirstMembers(entity, e);
      RemoveFirstNoDup(entity, e);
      match e.kind {
        case StructureKind =>
          RemoveFirstMembers(build, e);
          RemoveFirstNoDup(build, e);
          var found2; build, found2 := EraseFirst(build, e);
        case NpcKind =>
          RemoveFirstMembers(npc, e);
          RemoveFirstNoDup(npc, e);
          var found3; npc, found3 := EraseFirst(npc, e);
        case ObjectKind =>
          RemoveFirstMembers(objects, e);
          RemoveFirstNoDup(objects, e);
          var found4; objects, found4 := EraseFirst(objects, e);
        case _ =>
      }
      entity := rest;
      return Removed;
    }

    /** The particle part of update(p, delta): the particles whose kill
        (delta) holds are removed, keeping the others in order; then each
        moving particle moves by its velocity times delta and is dropped
        when it lands in a FOUNTAIN's basin. */
    method UpdateParticles(delta: nat, kill: (Particle, nat) -> bool)
      modifies this`particles
      ensures particles == MoveAll(Filter(old(particles), p => !kill(p, delta)), delta as real, FountainBasins(build))
    {
      var ps := Filter(particles, p => !kill(p, delta));
      var basins := FountainBasins(build);
      var kept: seq<Particle> := [];
      for i := 0 to |ps|
        invariant kept == MoveAll(ps[..i], delta as real, basins)
      {
        var p := ps[i];
        assert ps[..i + 1][..i] == ps[..i];
        assert ps[..i + 1][i] == p;
        if p.canMove {
          var q := Moved(p, delta as real);
          var caught := InFountain(q);
          if !caught {
            kept := kept + [q];
          }
        } else {
          kept := kept + [p];
        }
      }
      assert ps[..|ps|] == ps;
      particles := kept;
    }

    /** The scan over the structures: whether p lies in a FOUNTAIN's
        basin. */
    method InFountain(p: Particle) returns (caught: bool)
      ensures caught <==> InAnyBasin(p, FountainBasins(build))
    {
      caught := false;
      for j := 0 to |build|
        invariant caught <==> InAnyBasin(p, FountainBasins(build[..j]))
      {
        var b := build[j];
        assert build[..j + 1][..j] == build[..j];
        InAnyBasinAppend(p, FountainBasins(build[..j]), if b.bsub == Fountain then [BasinOf(b)] else []);
        if b.bsub == Fountain {
          if p.loc.x >= b.loc.x && p.loc.x <= b.loc.x + b.width {
            if p.loc.y <= b.loc.y + b.height * 0.25 {
              assert [BasinOf(b)][0] == BasinOf(b);
              caught := true;
            }
          }
        }
      }
      assert build[..|build|] == build;
    }

    /** The particle part of detect: each particle lands on, or falls
        towards, the column under it. */
    method DetectParticles(dt: real)
      requires 0 < lineCount <= |worldData|
      modifies this`particles
      ensures particles == LandAll(old(particles), worldData[..lineCount], worldStart, dt)
    {
      for i := 0 to |particles|
        invariant |particles| == |old(particles)|
        invariant forall k :: 0 <= k < |particles| ==>
          particles[k] == if k < i then LandAll(old(particles), worldData[..lineCount], worldStart, dt)[k] else old(particles)[k]
      {
        var p := particles[i];
        var l := Trunc((p.loc.x + p.width / 2.0 - worldStart as real) / (Hline as real));
        if l < 0 {
          l := 0;
        }
        var c: nat := l;
        if c > lineCount - 1 {
          c := lineCount - 1;
        }
        assert c == ColumnIndex(p.loc.x, p.width, worldStart, lineCount);
        var h := worldData[c].groundHeight;
        if p.loc.y < h {
          p := p.(loc := Vec2(p.loc.x, h), vely := 0.0, velx := 0.0, canMove := false);
        } else if p.gravity && p.vely > FallCutoff {
          p := p.(vely := p.vely - 0.003 * dt);
        }
        particles := particles[i := p];
      }
    }

    /** The village check of detect for the player at px: entering a
        village (inside now, not at the last check) greets the player with
        its name; every village records whether the player is inside. */
    method NoticeVillages(px: real) returns (welcomed: seq<string>)
      requires Registered()
      modifies village`entered
      ensures welcomed == old(Greeted(village, px))
      ensures forall k :: 0 <= k < |village| ==> village[k].entered == InsideVillage(village[k], px)
    {
      welcomed := [];
      for i := 0 to |village|
        invariant welcomed == old(Greeted(village[..i], px))
        invariant forall k :: 0 <= k < i ==> village[k].entered == InsideVillage(village[k], px)
        invariant forall k :: i <= k < |village| ==> village[k].entered == old(village[k].entered)
      {
        var v := village[i];
        assert village[..i + 1][..i] == village[..i];
        if px > v.startX && px < v.endX {
          if !v.entered {
            welcomed := welcomed + [v.name];
            v.entered := true;
          }
        } else {
          v.entered := false;
        }
      }
      assert village[..|village|] == village;
    }
  }

  /** The first loop of generate has laid down every anchor before column
      i: those columns hold their Raw height, the rest are blank. */
  ghost predicate SeededBelow(data: seq<Column>, i: nat, rand: nat -> nat) {
    forall j :: 0 <= j < |data| ==> data[j] == Blank.(groundHeight := if j < i then Raw(j, rand) else 0.0)
  }

  /** Writing anchor m (column i) from anchor m - 1 extends the seeded part
      by GROUND_HILLINESS columns. */
  lemma SeedStep(data: seq<Column>, i: nat, m: nat, rand: nat -> nat)
    requires 1 <= m && i == AnchorColumn(m) && i < |data|
    requires SeededBelow(data, i, rand)
    ensures i - GroundHilliness >= 0
    ensures SeededBelow(data[i := data[i].(groundHeight := data[i - GroundHilliness].groundHeight + Step(rand(m - 1)) as real)],
                        i + GroundHilliness, rand)
  {
    RawAt(m - 1, 0, rand);
    assert AnchorColumn(m - 1) + 0 == i - GroundHilliness;
    forall j | i <= j < |data| && j < i + GroundHilliness
      ensures Raw(j, rand) == if j == i then AnchorHeight(m, rand) else 0.0
    {
      RawAt(m, j - i, rand);
    }
  }

  /** The first loop of generate: column 0 holds GROUND_HEIGHT_INITIAL and
      each GROUND_HILLINESS-th column the one before it plus a step drawn
      from rand; the other columns stay blank. */
  method SeedAnchors(size: nat, rand: nat -> nat) returns (data: seq<Column>, used: nat)
    requires 0 < size
    ensures |data| == size
    ensures forall j :: 0 <= j < size ==> data[j] == Blank.(groundHeight := Raw(j, rand))
    ensures used == AnchorCount(size)
  {
    data := seq(size, _ => Blank);
    data := data[0 := Blank.(groundHeight := GroundHeightInitial)];
    RawZero(rand);
    var i: nat := GroundHilliness;
    ghost var m: nat := 1;
    used := 0;
    forall j | 0 < j < size && j < i ensures Raw(j, rand) == 0.0 {
      RawAt(0, j, rand);
    }
    while i < size
      invariant i == AnchorColumn(m) && 1 <= m && used == m - 1
      invariant AnchorColumn(m - 1) < size
      invariant |data| == size
      invariant SeededBelow(data, i, rand)
    {
      SeedStep(data, i, m, rand);
      data := data[i := data[i].(groundHeight := data[i - GroundHilliness].groundHeight + Step(rand(used)) as real)];
      used := used + 1;
      i := i + GroundHilliness;
      m := m + 1;
    }
    OffsetFromAnchor(m - 1, size - 1 - AnchorColumn(m - 1));
  }

  /** The bound checks at the end of each iteration of the second loop. */
  method ClampColumn(c: Column) returns (r: Column)
    ensures r == c.(groundHeight := Clamp(c.groundHeight))
  {
    r := c;
    if r.groundHeight < GroundHeightMinimum {
      r := r.(groundHeight := GroundHeightMinimum);
    } else if r.groundHeight > GroundHeightMaximum {
      r := r.(groundHeight := GroundHeightMaximum);
    }
    if r.groundHeight <= 0.0 {
      r := r.(groundHeight := GroundHeightMinimum);
    }
  }

  /** The second loop has run over the first j columns of data, leaving
      geninc as the slope. */
  ghost predicate SweptBelow(data: seq<Column>, j: nat, geninc: real, size: nat, rand: nat -> nat) {
    && j <= size == |data|
    && data[..j] == SweepTo(j, size, rand).cols
    && geninc == SweepTo(j, size, rand).geninc
  }

  /** Columns j onwards still hold the heights the first loop gave them. */
  ghost predicate SeededFrom(data: seq<Column>, j: nat, rand: nat -> nat) {
    forall t :: j <= t < |data| ==> data[t].groundHeight == Raw(t, rand)
  }

  /** The height and slope step of one iteration of the second loop, on
      column j: a column with a non-zero height is an anchor and resets
      geninc to the slope towards the next anchor (0 when that lies past
      the end); a column with height 0 takes the previous column's height
      plus geninc. */
  method FillColumn(data: seq<Column>, j: nat, geninc: real, size: nat, rand: nat -> nat)
    returns (h: real, g: real)
    requires j < size && SweptBelow(data, j, geninc, size, rand) && SeededFrom(data, j, rand)
    ensures h == if Raw(j, rand) != 0.0 || j == 0 then Raw(j, rand)
                 else SweepTo(j, size, rand).cols[j - 1].groundHeight + SweepTo(j, size, rand).geninc
    ensures g == if Raw(j, rand) != 0.0 || j == 0 then Slope(j, size, rand) else SweepTo(j, size, rand).geninc
  {
    h := data[j].groundHeight;
    g := geninc;
    if h != 0.0 {
      g := if j + GroundHilliness < size
           then (data[j + GroundHilliness].groundHeight - h) / (GroundHilliness as real)
           else 0.0;
    } else {
      RawZero(rand);
      assert data[j - 1] == data[..j][j - 1];
      h := data[j - 1].groundHeight + geninc;
    }
  }

  lemma SweepGrows(data: seq<Column>, j: nat, c: Column, g: real, geninc: real, size: nat, rand: nat -> nat)
    requires j < size && SweptBelow(data, j, geninc, size, rand) && SeededFrom(data, j, rand)
    requires SweepTo(j + 1, size, rand) == Sweep(SweepTo(j, size, rand).cols + [c], g)
    ensures SweptBelow(data[j := c], j + 1, g, size, rand)
    ensures SeededFrom(data[j := c], j + 1, rand)
  {
    assert data[j := c][..j + 1] == data[..j] + [c];
  }

  /** The second loop of generate, over columns seeded by SeedAnchors, with
      the rand stream continuing at index k0. */
  method SweepColumns(seeded: seq<Column>, size: nat, rand: nat -> nat, k0: nat) returns (data: seq<Column>)
    requires |seeded| == size
    requires forall j :: 0 <= j < size ==> seeded[j].groundHeight == Raw(j, rand)
    requires k0 == AnchorCount(size)
    ensures data == Generated(size, rand)
  {
    data := seeded;
    var geninc: real := 0.0;
    var k := k0;
    for j := 0 to size
      invariant SweptBelow(data, j, geninc, size, rand)
      invariant SeededFrom(data, j, rand)
      invariant k == DrawIndex(size, j)
    {
      var h, g := FillColumn(data, j, geninc, size, rand);
      var c := Decorated(h, rand(k), rand(k + 1), rand(k + 2));
      c := ClampColumn(c);
      SweepNext(j, size, rand, h, g);
      SweepGrows(data, j, c, g, geninc, size, rand);
      data := data[j := c];
      geninc := g;
      k := k + 3;
    }
    assert data[..size] == data;
  }

  predicate Separate(a: seq<Entity>, b: seq<Entity>) {
    forall e :: e in a ==> e !in b
  }

  function SavedOf(ns: seq<Entity>, bs: seq<Entity>, ms: seq<Entity>): Saved
    reads ns, bs, ms
  {
    Saved(NpcsOf(ns), BuildsOf(bs), MobsOf(ms))
  }

  /** save's npc loop: after the lines of the values vs already written,
      the dialog index and the truncated position of each npc in turn. */
  method SaveNpcs(ns: seq<Entity>, ghost vs: seq<int>, data0: string) returns (data: string)
    requires data0 == Text(vs)
    ensures data == Text(vs + Flat(NpcsOf(ns), NpcFields))
  {
    ghost var rs := NpcsOf(ns);
    data := data0;
    assert rs[..0] == [] && vs + [] == vs;
    for i := 0 to |ns|
      invariant data == Text(vs + Flat(rs[..i], NpcFields))
    {
      var n := ns[i];
      assert NpcFields(rs[i]) == [n.dialogIndex, Trunc(n.loc.x), Trunc(n.loc.y)];
      FlatNextAfter(vs, rs, i, NpcFields);
      EmitThree(vs + Flat(rs[..i], NpcFields), n.dialogIndex, Trunc(n.loc.x), Trunc(n.loc.y));
      data := data + ToDecimal(n.dialogIndex) + "\n";
      data := data + ToDecimal(Trunc(n.loc.x)) + "\n";
      data := data + ToDecimal(Trunc(n.loc.y)) + "\n";
    }
    assert rs[..|ns|] == rs;
  }

  /** save's structure loop: the truncated position of each structure. */
  method SaveBuilds(bs: seq<Entity>, ghost vs: seq<int>, data0: string) returns (data: string)
    requires data0 == Text(vs)
    ensures data == Text(vs + Flat(BuildsOf(bs), BuildFields))
  {
    ghost var rs := BuildsOf(bs);
    data := data0;
    assert rs[..0] == [] && vs + [] == vs;
    for i := 0 to |bs|
      invariant data == Text(vs + Flat(rs[..i], BuildFields))
    {
      var b := bs[i];
      assert BuildFields(rs[i]) == [Trunc(b.loc.x), Trunc(b.loc.y)];
      FlatNextAfter(vs, rs, i, BuildFields);
      EmitTwo(vs + Flat(rs[..i], BuildFields), Trunc(b.loc.x), Trunc(b.loc.y));
      data := data + ToDecimal(Trunc(b.loc.x)) + "\n";
      data := data + ToDecimal(Trunc(b.loc.y)) + "\n";
    }
    assert rs[..|bs|] == rs;
  }

  /** save's mob loop: the truncated position of each mob and its alive
      flag as 1 or 0. */
  method SaveMobs(ms: seq<Entity>, ghost vs: seq<int>, data0: string) returns (data: string)
    requires data0 == Text(vs)
    ensures data == Text(vs + Flat(MobsOf(ms), MobFields))
  {
    ghost var rs := MobsOf(ms);
    data := data0;
    assert rs[..0] == [] && vs + [] == vs;
    for i := 0 to |ms|
      invariant data == Text(vs + Flat(rs[..i], MobFields))
    {
      var m := ms[i];
      assert MobFields(rs[i]) == [Trunc(m.loc.x), Trunc(m.loc.y), if m.alive then 1 else 0];
      FlatNextAfter(vs, rs, i, MobFields);
      EmitThree(vs + Flat(rs[..i], MobFields), Trunc(m.loc.x), Trunc(m.loc.y), if m.alive then 1 else 0);
      data := data + ToDecimal(Trunc(m.loc.x)) + "\n";
      data := data + ToDecimal(Trunc(m.loc.y)) + "\n";
      data := data + ToDecimal(if m.alive then 1 else 0) + "\n";
    }
    assert rs[..|ms|] == rs;
  }

  /** load on the given npc, structure and mob vectors. */
  method LoadInto(ns: seq<Entity>, bs: seq<Entity>, ms: seq<Entity>, text: string, ghost s0: Saved) returns (status: Status)
    requires NoDup(ns) && NoDup(bs) && NoDup(ms)
    requires Separate(bs, ns) && Separate(bs, ms) && Separate(ms, ns)
    requires s0 == SavedOf(ns, bs, ms)
    modifies ns, bs, ms
    ensures Loaded(SavedOf(ns, bs, ms), status) == LoadAll(s0, text)
  {
    var r := Open(text);
    ghost var p1 := LoadEach(s0.npcs, r, LoadNpc);
    r, status := LoadNpcPhase(ns, bs, ms, r);
    ghost var s1 := SavedOf(ns, bs, ms);
    assert s1 == s0.(npcs := p1.recs);
    if status != Going {
      return;
    }
    ghost var p2 := LoadEach(s1.builds, r, LoadBuild);
    r, status := LoadBuildPhase(ns, bs, ms, r);
    ghost var s2 := SavedOf(ns, bs, ms);
    assert s2 == s1.(builds := p2.recs);
    if status != Going {
      return;
    }
    ghost var p3 := LoadEach(s2.mobs, r, LoadMob);
    r, status := LoadMobPhase(ns, bs, ms, r);
    assert SavedOf(ns, bs, ms) == s2.(mobs := p3.recs);
  }

  /** The npc part of load; the structures and mobs keep their values. */
  method LoadNpcPhase(ns: seq<Entity>, bs: seq<Entity>, ms: seq<Entity>, r: Reader) returns (r': Reader, status: Status)
    requires NoDup(ns) && Separate(bs, ns) && Separate(ms, ns)
    modifies ns
    ensures RecordsLoaded(NpcsOf(ns), r', status, LoadEach(old(NpcsOf(ns)), r, LoadNpc))
    ensures BuildsOf(bs) == old(BuildsOf(bs)) && MobsOf(ms) == old(MobsOf(ms))
  {
    ghost var b0, m0 := BuildsOf(bs), MobsOf(ms);
    r', status := LoadNpcs(ns, r);
    forall j | 0 <= j < |bs| ensures BuildOf(bs[j]) == b0[j] {
      assert bs[j] in bs;
      assert bs[j] !in ns;
    }
    forall j | 0 <= j < |ms| ensures MobOf(ms[j]) == m0[j] {
      assert ms[j] in ms;
      assert ms[j] !in ns;
    }
    BuildsOfIs(bs, b0);
    MobsOfIs(ms, m0);
  }

  /** The structure part of load; the npcs and mobs keep their values. */
  method LoadBuildPhase(ns: seq<Entity>, bs: seq<Entity>, ms: seq<Entity>, r: Reader) returns (r': Reader, status: Status)
    requires NoDup(bs) && Separate(bs, ns) && Separate(bs, ms)
    modifies bs
    ensures RecordsLoaded(BuildsOf(bs), r', status, LoadEach(old(BuildsOf(bs)), r, LoadBuild))
    ensures NpcsOf(ns) == old(NpcsOf(ns)) && MobsOf(ms) == old(MobsOf(ms))
  {
    ghost var n0, m0 := NpcsOf(ns), MobsOf(ms);
    r', status := LoadBuilds(bs, r);
    forall j | 0 <= j < |ns| ensures NpcOf(ns[j]) == n0[j] {
      assert ns[j] in ns;
      assert ns[j] !in bs;
    }
    NpcsOfIs(ns, n0);
    forall j | 0 <= j < |ms| ensures MobOf(ms[j]) == m0[j] {
      assert ms[j] in ms;
      assert ms[j] !in bs;
    }
    MobsOfIs(ms, m0);
  }

  /** The mob part of load; the npcs and structures keep their values. */
  method LoadMobPhase(ns: seq<Entity>, bs: seq<Entity>, ms: seq<Entity>, r: Reader) returns (r': Reader, status: Status)
    requires NoDup(ms) && Separate(bs, ms) && Separate(ms, ns)
    modifies ms
    ensures RecordsLoaded(MobsOf(ms), r', status, LoadEach(old(MobsOf(ms)), r, LoadMob))
    ensures NpcsOf(ns) == old(NpcsOf(ns)) && BuildsOf(bs) == old(BuildsOf(bs))
  {
    ghost var n0, b0 := NpcsOf(ns), BuildsOf(bs);
    r', status := LoadMobs(ms, r);
    forall j | 0 <= j < |ns| ensures NpcOf(ns[j]) == n0[j] {
      assert ns[j] in ns;
      assert ns[j] !in ms;
    }
    forall j | 0 <= j < |bs| ensures BuildOf(bs[j]) == b0[j] {
      assert bs[j] in bs;
      assert bs[j] !in ms;
    }
    NpcsOfIs(ns, n0);
    BuildsOfIs(bs, b0);
  }
}
