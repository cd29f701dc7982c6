/// Moving between worlds (src/world.cpp): walking off either end into a
/// linked world, entering and leaving a structure, and entering and leaving
/// an arena. What loadWorldFromXML builds is the parameter `worlds`, the
/// world each loadable file name gives; the globals these moves share live
/// in a Navigation.

module Transitions {
  import opened Common
  import opened Terrain
  import opened Entities
  import opened GameWorld

  /** The globals of src/world.cpp the moves read and write: currentXML
      (without its "xml/" prefix), the `inside` stack of the files left
      behind on entering structures, the battleNest/battleNestLoc stacks of
      the worlds and player positions left behind on entering arenas, and
      inBattle. */
  class Navigation {
    var current: string
    var inside: seq<string>
    var battleNest: seq<World>
    var battleNestLoc: seq<Vec2>
    var inBattle: bool

    /** The globals as the program starts. */
    constructor ()
      ensures current == "" && inside == [] && battleNest == [] && battleNestLoc == [] && !inBattle
    {
      current, inside := "", [];
      battleNest, battleNestLoc, inBattle := [], [], false;
    }

    /** loadWorldFromXML(path): remembers path as the current file and
        gives the world built from it. */
    method Open(path: string, worlds: map<string, World>) returns (w: World)
      requires path in worlds
      modifies this`current
      ensures current == path && w == worlds[path]
    {
      current := path;
      w := worlds[path];
    }
  }

  /** A world as loadWorldFromXML returns it: generated, so it has a last
      column. */
  predicate Entered(w: World)
    reads w
  {
    0 < w.lineCount <= |w.worldData|
  }

  // ---------------------------------------------------------------------
  // Walking off either end

  /** goWorldLeft's test: the player is less than 15 HLINE right of the
      world's left end. */
  predicate NearLeftEnd(px: real, ws: int) {
    px < (ws + 15 * Hline) as real
  }

  /** goWorldRight's test. -worldStart - HLINE * 15 is computed in unsigned
      int, so in a world narrower than 30 HLINE the bound wraps round. */
  predicate NearRightEnd(px: real, pw: real, ws: int) {
    px + pw > U32(-ws - 15 * Hline) as real
  }

  /** In a world at least 30 HLINE wide the right-end test is the plain
      one: the player's right side is less than 15 HLINE from the end. */
  lemma NearRightEndWide(px: real, pw: real, ws: int)
    requires 15 * Hline <= -ws < Two32
    ensures NearRightEnd(px, pw, ws) <==> px + pw > (-ws - 15 * Hline) as real
  {
  }

  /** In a narrower world the bound wraps, and only a player more than
      2^32 - 15 HLINE to the right of 0 passes the test. */
  lemma NearRightEndNarrow(px: real, pw: real, ws: int)
    requires 0 <= -ws < 15 * Hline <= Two32
    ensures NearRightEnd(px, pw, ws) <==> px + pw > (Two32 - ws - 15 * Hline) as real
  {
    WrapNegative(-ws - 15 * Hline);
  }

  /** A negative value above -2^32 read as an unsigned int. */
  lemma WrapNegative(n: int)
    requires -Two32 <= n < 0
    ensures U32(n) == n + Two32
  {
  }

  /** Where goWorldRight puts the player, as written: tmp->worldStart +
      HLINE * 10 is computed in unsigned int. */
  function RightArrivalAsWritten(ws: int): (r: real)
    ensures 0.0 <= r < Two32 as real
  {
    U32(ws + 10 * Hline) as real
  }

  /** Where goWorldRight evidently means to put the player: 10 HLINE right
      of the new world's left end. */
  function RightArrival(ws: int): real {
    (ws + 10 * Hline) as real
  }

  /** Where goWorldLeft puts the player, as written: tmp->worldStart -
      HLINE * -10.0f, in floating point. */
  function LeftArrivalAsWritten(ws: int): (r: real)
    ensures r == (ws + 10 * Hline) as real
  {
    ws as real - (Hline as real) * -10.0
  }

  /** Where goWorldLeft evidently means to put the player: 10 HLINE left of
      the new world's right end, the mirror image of RightArrival. */
  function LeftArrival(ws: int): real {
    (-ws - 10 * Hline) as real
  }

  /** In every world whose left end lies more than 10 HLINE left of 0 the
      unsigned sum wraps, and the player lands past the right end of the
      world instead of near its left end. */
  lemma RightArrivalOvershoots(ws: int)
    requires -0x8000_0000 <= ws && ws + 10 * Hline < 0
    ensures RightArrivalAsWritten(ws) == (Two32 + ws + 10 * Hline) as real
    ensures RightArrivalAsWritten(ws) > (-ws) as real
    ensures RightArrivalAsWritten(ws) != RightArrival(ws)
  {
  }

  /** goWorldLeft as written lands the player on the same spot goWorldRight
      means, the LEFT end of the world entered from its right, already
      inside that world's own go-left zone; the height it gives the player
      is that of the last, rightmost column. */
  lemma LeftArrivalAsWrittenAtLeftEnd(ws: int)
    ensures LeftArrivalAsWritten(ws) == RightArrival(ws)
    ensures NearLeftEnd(LeftArrivalAsWritten(ws), ws)
  {
  }

  /** The two intended arrivals mirror each other about the world's
      centre. Each lands inside the zone that leads back where the player
      came from, and, in a world at least 25 HLINE wide, outside the zone
      that leads further on. */
  lemma ArrivalsMirror(ws: int, pw: real)
    requires 15 * Hline <= -ws < Two32 && 0.0 <= pw
    ensures LeftArrival(ws) == -RightArrival(ws)
    ensures NearRightEnd(LeftArrival(ws), pw, ws)
    ensures NearLeftEnd(RightArrival(ws), ws)
    ensures 25 * Hline <= TheWidth(ws) ==> !NearLeftEnd(LeftArrival(ws), ws)
    ensures pw <= (TheWidth(ws) - 25 * Hline) as real ==> !NearRightEnd(RightArrival(ws), pw, ws)
  {
    NearRightEndWide(LeftArrival(ws), pw, ws);
    NearRightEndWide(RightArrival(ws), pw, ws);
  }

  /** goWorldLeft: with a link on the left and the player near the left
      end, the linked world is loaded and the player moved to x =
      worldStart + 10 HLINE of that world (LeftArrivalAsWritten, its LEFT
      end) at the height of its last column; otherwise nothing changes and
      the same world stays in play. */
  method GoWorldLeft(w: World, p: Entity, nav: Navigation, worlds: map<string, World>) returns (next: World)
    requires w.toLeft.Some? ==> w.toLeft.value in worlds && Entered(worlds[w.toLeft.value])
    modifies p`loc, nav`current
    ensures if w.toLeft.Some? && NearLeftEnd(old(p.loc.x), w.worldStart) then
              var tmp := worlds[w.toLeft.value];
              && next == tmp && nav.current == w.toLeft.value
              && p.loc == Vec2(LeftArrivalAsWritten(tmp.worldStart), tmp.worldData[tmp.lineCount - 1].groundHeight)
            else
              next == w && p.loc == old(p.loc) && nav.current == old(nav.current)
  {
    if w.toLeft.Some? && NearLeftEnd(p.loc.x, w.worldStart) {
      var tmp := nav.Open(w.toLeft.value, worlds);
      p.loc := Vec2(LeftArrivalAsWritten(tmp.worldStart), tmp.worldData[tmp.lineCount - 1].groundHeight);
      return tmp;
    }
    return w;
  }

  /** goWorldRight: with a link on the right and the player near the right
      end, the linked world is loaded and the player moved to x =
      worldStart + 10 HLINE of that world computed in unsigned int
      (RightArrivalAsWritten) at GROUND_HEIGHT_MINIMUM; otherwise nothing
      changes. */
  method GoWorldRight(w: World, p: Entity, nav: Navigation, worlds: map<string, World>) returns (next: World)
    requires w.toRight.Some? ==> w.toRight.value in worlds
    modifies p`loc, nav`current
    ensures if w.toRight.Some? && NearRightEnd(old(p.loc.x), old(p.width), w.worldStart) then
              var tmp := worlds[w.toRight.value];
              && next == tmp && nav.current == w.toRight.value
              && p.loc == Vec2(RightArrivalAsWritten(tmp.worldStart), GroundHeightMinimum)
            else
              next == w && p.loc == old(p.loc) && nav.current == old(nav.current)
  {
    if w.toRight.Some? && NearRightEnd(p.loc.x, p.width, w.worldStart) {
      var tmp := nav.Open(w.toRight.value, worlds);
      p.loc := Vec2(RightArrivalAsWritten(tmp.worldStart), GroundHeightMinimum);
      return tmp;
    }
    return w;
  }

  // ---------------------------------------------------------------------
  // Structures

  /** The player stands strictly within the structure's width. */
  predicate Encloses(b: Entity, px: real, pw: real)
    reads b
  {
    px > b.loc.x && px + pw < b.loc.x + b.width
  }

  /** bs[j] is the first structure around the player. */
  predicate FirstEnclosing(bs: seq<Entity>, j: int, px: real, pw: real)
    reads bs
  {
    && 0 <= j < |bs| && Encloses(bs[j], px, pw)
    && forall i :: 0 <= i < j ==> !Encloses(bs[i], px, pw)
  }

  /** The scan of goInsideStructure over build for the first structure
      around the player. */
  method FindEnclosing(bs: seq<Entity>, px: real, pw: real) returns (k: Option<nat>)
    ensures k.Some? ==> k.value < |bs| && Encloses(bs[k.value], px, pw)
    ensures k.Some? ==> forall j :: 0 <= j < k.value ==> !Encloses(bs[j], px, pw)
    ensures k.None? <==> forall j :: 0 <= j < |bs| ==> !Encloses(bs[j], px, pw)
  {
    var i := 0;
    while i < |bs|
      invariant i <= |bs|
      invariant forall j :: 0 <= j < i ==> !Encloses(bs[j], px, pw)
    {
      if Encloses(bs[i], px, pw) {
        return Some(i);
      }
      i := i + 1;
    }
    return None;
  }

  /** The scan of goInsideStructure, on the way out, for the first
      structure whose door leads to the file being left. */
  method FindDoor(bs: seq<Entity>, file: string) returns (k: Option<nat>)
    ensures k.Some? ==> k.value < |bs| && bs[k.value].inside == file
    ensures k.Some? ==> forall j :: 0 <= j < k.value ==> bs[j].inside != file
    ensures k.None? <==> forall j :: 0 <= j < |bs| ==> bs[j].inside != file
  {
    var i := 0;
    while i < |bs|
      invariant i <= |bs|
      invariant forall j :: 0 <= j < i ==> bs[j].inside != file
    {
      if bs[i].inside == file {
        return Some(i);
      }
      i := i + 1;
    }
    return None;
  }

  /** goInsideStructure. Outside (`inside` empty): inside the first
      structure around the player, the current file is pushed and the
      structure's world loaded; the player does not move. Inside: the file
      on top of the stack is loaded (so it becomes the current file even
      when the way out fails); if one of its structures leads back to the
      file being left, the stack is popped, the player placed at that
      structure's centre and the loaded world entered. Otherwise the world
      in play stays. */
  method GoInsideStructure(w: World, p: Entity, nav: Navigation, worlds: map<string, World>) returns (next: World)
    requires |nav.inside| == 0 ==>
      forall j :: FirstEnclosing(w.build, j, p.loc.x, p.width) ==> w.build[j].inside in worlds
    requires |nav.inside| > 0 ==> nav.inside[|nav.inside| - 1] in worlds
    requires |nav.inside| > 0 ==> p !in worlds[nav.inside[|nav.inside| - 1]].build
    modifies p`loc, nav`current, nav`inside
    ensures |old(nav.inside)| == 0 ==>
      if exists j :: 0 <= j < |w.build| && Encloses(w.build[j], old(p.loc.x), p.width) then
        exists j :: old(FirstEnclosing(w.build, j, p.loc.x, p.width))
          && next == worlds[w.build[j].inside] && nav.current == w.build[j].inside
          && nav.inside == [old(nav.current)] && p.loc == old(p.loc)
      else
        next == w && nav.current == old(nav.current) && nav.inside == [] && p.loc == old(p.loc)
    ensures |old(nav.inside)| > 0 ==>
      var back := old(nav.inside)[|old(nav.inside)| - 1];
      var tmp := worlds[back];
      && nav.current == back
      && if exists j :: 0 <= j < |tmp.build| && tmp.build[j].inside == old(nav.current) then
           exists j :: 0 <= j < |tmp.build| && tmp.build[j].inside == old(nav.current)
             && (forall i :: 0 <= i < j ==> tmp.build[i].inside != old(nav.current))
             && next == tmp && nav.inside == old(nav.inside)[..|old(nav.inside)| - 1]
             && p.loc == old(p.loc).(x := tmp.build[j].loc.x + tmp.build[j].width / 2.0)
         else
           next == w && nav.inside == old(nav.inside) && p.loc == old(p.loc)
  {
    if |nav.inside| == 0 {
      var k := FindEnclosing(w.build, p.loc.x, p.width);
      if k.Some? {
        var b := w.build[k.value];
        assert FirstEnclosing(w.build, k.value, p.loc.x, p.width);
        nav.inside := nav.inside + [nav.current];
        next := nav.Open(b.inside, worlds);
        return;
      }
      return w;
    }
    var leaving := nav.current;
    var tmp := nav.Open(nav.inside[|nav.inside| - 1], worlds);
    var k := FindDoor(tmp.build, leaving);
    if k.Some? {
      var b := tmp.build[k.value];
      nav.inside := nav.inside[..|nav.inside| - 1];
      p.loc := p.loc.(x := b.loc.x + b.width / 2.0);
      assert b.inside == leaving && p != b;
      return tmp;
    }
    return w;
  }

  // ---------------------------------------------------------------------
  // Arenas

  /** The two battle stacks: the worlds left to enter arenas and where the
      player stood in each. */
  datatype Nest = Nest(worlds: seq<World>, locs: seq<Vec2>)

  /** Arena::Arena pushes the world left and the player's position. */
  function Enter(n: Nest, leave: World, loc: Vec2): (r: Nest)
    ensures |r.worlds| == |n.worlds| + 1 && |r.locs| == |n.locs| + 1
  {
    Nest(n.worlds + [leave], n.locs + [loc])
  }

  /** exitArena as written: the world returned to is the FRONT of
      battleNest, while the position restored is the BACK of
      battleNestLoc. */
  function ExitAsWritten(n: Nest): (r: (World, Vec2, Nest))
    requires 0 < |n.worlds| && 0 < |n.locs|
    ensures |r.2.worlds| == |n.worlds| - 1 && |r.2.locs| == |n.locs| - 1
    ensures r.0 in n.worlds && r.1 in n.locs
  {
    (n.worlds[0], n.locs[|n.locs| - 1], Nest(n.worlds[1..], n.locs[..|n.locs| - 1]))
  }

  /** exitArena as evidently meant: both stacks popped at the back. */
  function Exit(n: Nest): (r: (World, Vec2, Nest))
    requires 0 < |n.worlds| && 0 < |n.locs|
    ensures |r.2.worlds| == |n.worlds| - 1 && |r.2.locs| == |n.locs| - 1
    ensures r.0 in n.worlds && r.1 in n.locs
  {
    (n.worlds[|n.worlds| - 1], n.locs[|n.locs| - 1], Nest(n.worlds[..|n.worlds| - 1], n.locs[..|n.locs| - 1]))
  }

  /** Leaving an arena undoes entering it: the player goes back to the
      world and the spot they left, and the stacks are as before. */
  lemma ExitUndoesEnter(n: Nest, leave: World, loc: Vec2)
    ensures Exit(Enter(n, leave, loc)) == (leave, loc, n)
  {
    assert (n.worlds + [leave])[..|n.worlds|] == n.worlds;
    assert (n.locs + [loc])[..|n.locs|] == n.locs;
  }

  /** With one arena entered from inside another, exitArena as written
      returns to the OUTER world but at the spot where the inner arena was
      entered, and keeps the inner world paired with the outer spot. */
  lemma NestedExitAsWritten(outer: World, inner: World, l1: Vec2, l2: Vec2)
    requires outer != inner
    ensures var r := ExitAsWritten(Enter(Enter(Nest([], []), outer, l1), inner, l2));
            r.0 == outer && r.1 == l2 && r.2 == Nest([inner], [l1])
    ensures ExitAsWritten(Enter(Enter(Nest([], []), outer, l1), inner, l2)).0
            != Exit(Enter(Enter(Nest([], []), outer, l1), inner, l2)).0
  {
  }

  /** With a single arena entered the two readings agree. */
  lemma SingleExitAgrees(n: Nest)
    requires |n.worlds| == 1 && 0 < |n.locs|
    ensures ExitAsWritten(n) == Exit(n)
  {
    assert n.worlds[1..] == n.worlds[..0];
  }

  /** The world of a new arena: generate(800), then the door mob and the
      mob fought. */
  method ArenaWorld(m: Entity, rand: nat -> nat, doorShape: Shape) returns (w: World)
    requires 800 + GroundHilliness < Two32
    requires m.kind == MobKind
    ensures fresh(w) && w.Registered()
    ensures w.worldData == Generated(800 + GroundHilliness, rand)
    ensures w.lineCount == 800 + GroundHilliness && w.worldStart == WorldStartFor(800)
    ensures |w.mob| == 2 && fresh(w.mob[0]) && w.mob[1] == m && w.entity == w.mob
    ensures w.mob[0].msub == MsDoor && w.mob[0].loc == Vec2(100.0, 100.0)
  {
    w := new World();
    var ok, used := w.Generate(800, rand);
    AddDoorAndMob(w, m, doorShape);
  }

  /** addMob(MS_DOOR, 100, 100) followed by pushing m on mob and entity, in
      a world holding no entity yet. */
  method AddDoorAndMob(w: World, m: Entity, doorShape: Shape)
    requires w.build == [] && w.mob == [] && w.npc == [] && w.merchant == []
    requires w.objects == [] && w.entity == [] && w.village == []
    requires m.kind == MobKind
    modifies w`mob, w`entity
    ensures w.Registered()
    ensures |w.mob| == 2 && fresh(w.mob[0]) && w.mob[1] == m && w.entity == w.mob
    ensures w.mob[0].msub == MsDoor && w.mob[0].loc == Vec2(100.0, 100.0)
  {
    var door := w.AddMob(MsDoor, 100.0, 100.0, doorShape);
    w.mob := w.mob + [m];
    w.entity := w.entity + [m];
  }

  /** An arena: a world of 800 columns holding a door and the mob fought. */
  class Arena {
    const world: World
    const mmob: Entity

    /** Arena(leave, p, m): generates the arena world, adds the door mob at
        (100, 100), adds the mob fought to its mobs and entities, and pushes
        the world left and the player's position on the battle stacks. */
    constructor (leave: World, p: Entity, m: Entity, nav: Navigation, rand: nat -> nat, doorShape: Shape)
      requires 800 + GroundHilliness < Two32
      requires m.kind == MobKind
      modifies nav`battleNest, nav`battleNestLoc, nav`inBattle
      ensures fresh(world) && mmob == m && world.Registered()
      ensures world.worldData == Generated(800 + GroundHilliness, rand)
      ensures world.lineCount == 800 + GroundHilliness && world.worldStart == WorldStartFor(800)
      ensures |world.mob| == 2 && fresh(world.mob[0]) && world.mob[1] == m && world.entity == world.mob
      ensures world.mob[0].msub == MsDoor && world.mob[0].loc == Vec2(100.0, 100.0)
      ensures nav.inBattle
      ensures Nest(nav.battleNest, nav.battleNestLoc) == Enter(old(Nest(nav.battleNest, nav.battleNestLoc)), leave, p.loc)
    {
      var w := ArenaWorld(m, rand, doorShape);
      world, mmob := w, m;
      new;
      nav.inBattle := true;
      nav.battleNest := nav.battleNest + [leave];
      nav.battleNestLoc := nav.battleNestLoc + [p.loc];
    }

    /** exitArena's test: the player's centre is strictly between the
        door's x and 12 HLINE to its right. */
    predicate AtDoor(p: Entity)
      requires 0 < |world.mob|
      reads this, world, world.mob, p
    {
      var d := world.mob[0];
      d.loc.x < p.loc.x + p.width / 2.0 < d.loc.x + (12 * Hline) as real
    }

    /** exitArena: at the door, the player goes back to the world at the
        FRONT of battleNest, which is erased, and to the spot at the back of
        battleNestLoc, which is popped (ExitAsWritten); inBattle tells
        whether battleNest still holds a world. Elsewhere nothing changes. */
    method ExitArena(p: Entity, nav: Navigation) returns (next: World)
      requires 0 < |world.mob|
      requires AtDoor(p) ==> 0 < |nav.battleNest| && 0 < |nav.battleNestLoc|
      modifies p`loc, nav`battleNest, nav`battleNestLoc, nav`inBattle
      ensures old(AtDoor(p)) ==>
        && (next, p.loc, Nest(nav.battleNest, nav.battleNestLoc)) == ExitAsWritten(old(Nest(nav.battleNest, nav.battleNestLoc)))
        && nav.inBattle == (|nav.battleNest| > 0)
      ensures !old(AtDoor(p)) ==>
        && next == world && p.loc == old(p.loc) && nav.inBattle == old(nav.inBattle)
        && nav.battleNest == old(nav.battleNest) && nav.battleNestLoc == old(nav.battleNestLoc)
    {
      if AtDoor(p) {
        next := nav.battleNest[0];
        nav.battleNest := nav.battleNest[1..];
        nav.inBattle := |nav.battleNest| > 0;
        p.loc := nav.battleNestLoc[|nav.battleNestLoc| - 1];
        nav.battleNestLoc := nav.battleNestLoc[..|nav.battleNestLoc| - 1];
        return;
      }
      return world;
    }
  }
}
