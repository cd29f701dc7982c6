# A verified model of the gamedev side-scroller's world core

This project models the core of a 2D side-scroller written in C++ (the
`gamedev` repository) in Dafny, and proves properties of that model. The
model covers these parts:

- **Terrain generation** (`World::generate`, `World::addHole`, `getTheWidth`).
  Generation draws an anchor height every `GROUND_HILLINESS` columns. It
  interpolates straight lines between anchors, clamps every column into
  `[GROUND_HEIGHT_MINIMUM, GROUND_HEIGHT_MAXIMUM]` and centres the world on
  x = 0 through `worldStart`, computed in 32-bit unsigned arithmetic.
- **The entity registry** of a `World`:
  - the typed vectors (`build`, `mob`, `npc`, `merchant`, `object`) and the
    flattened `entity` list;
  - the `add*` functions, `deleteEntities`, particles, lights (at most 64)
    and the links to neighbouring worlds.
- **The physics step of one entity** (`World::singleDetect`): removal of
  dead entities, ground snapping, gravity with its cut-off, pinning of high
  structures, and clamping to the world's edges.
- **The particle parts of `update` and `detect`**: expiry, movement, capture
  by a fountain's basin, and landing.
- **Villages**: the x-interval widened per structure, and the greeting when
  the player enters one.
- **The save file** (`World::save`/`World::load`). Save writes one integer
  per line, in the order npc, structure, mob, and ends with the sentinel line
  `dOnE`. Load reads it back with `std::getline` and `std::stoi`. The model
  is detailed enough to prove that load after save restores every entity up
  to the truncation of its position to `int`.
- **World transitions**: `goWorldLeft`, `goWorldRight`, the `inside` stack of
  `goInsideStructure`, and the arena stacks of `Arena`/`exitArena`.
- **The quest list** (`QuestHandler`): the `strtok` requirement reader,
  `drop`, `finish` and `hasQuest`.
- **The slot inventory** of `src/inventory.cpp`.
- **The sprite cache and texture cursor** of `include/texture.hpp`.
- **`PlayerSystem`**, the key-event state machine behind the player's
  horizontal velocity.
- **The small value helpers** of `include/common.hpp`.

Classes stay classes where the source updates their fields in place:
`World`, `Village`, `Entity`, `Navigation` (the globals `currentXML`,
`inside`, `battleNest`, `battleNestLoc` and `inBattle`), `Arena`,
`QuestHandler`, `Inventory` (over an `array`), `SpriteLoader`,
`TextureIterator` and `PlayerSystem`. Each method is proved against a
specification function, such as `Terrain.Generated`, `SaveFormat.LoadAll`,
`Inventories.Taken`, `Textures.Load` or `Player.Down`, and the lemmas state
what those functions promise.

The header constants `GROUND_HILLINESS`, `GROUND_HEIGHT_INITIAL`,
`GROUND_HEIGHT_MINIMUM`, `GROUND_HEIGHT_MAXIMUM` and `HLINE` are defined in
headers that are not part of this model. They are declared without values.
The only facts about them are `0 < GROUND_HEIGHT_MINIMUM <=
GROUND_HEIGHT_MAXIMUM` and positive `HLINE`, `GROUND_HILLINESS` and
`GROUND_HEIGHT_INITIAL`.

Several outside inputs become parameters:

| source | modelled as |
|---|---|
| the random generator | `rand: nat -> nat`, the k-th value drawn |
| `deltaTime` | the parameter `dt` |
| `loadWorldFromXML` | a map from file name to `World` |
| `Particles::kill` | a function parameter |
| `Inventory::hasItem` | a function parameter |
| `getControl` | the sequence `controls` |
| `Texture::loadTexture` | a function parameter, or the texture name it returned |
| the UI and game flags the key handlers read | the datatype `Player.Ui` |

Floating-point values are `real`. Casts from float to int are
`Physics.Trunc`, which truncates toward zero.

In a few places the code looks like a slip. The methods follow the code,
and the Findings section pairs each suspected slip with the intended
behaviour, proved separately:

- `goWorldRight` computes `tmp->worldStart + HLINE * 10` in unsigned int.
  `Transitions.GoWorldRight` places the player at that wrapped value.
- `goWorldLeft` computes `tmp->worldStart - HLINE * -10.0f`, which is
  `worldStart + 10*HLINE`, the left end of the world entered, while y comes
  from its last column. `Transitions.GoWorldLeft` places the player there.
  The mirror of goWorldRight's arrival would be `-worldStart - 10*HLINE`.
- `exitArena` takes the world from the front of `battleNest` and the
  position from the back of `battleNestLoc`. `Transitions.Arena.ExitArena`
  does the same.
- `exitArena` checks only the player's position at the door, not that the
  arena's mob is dead.
- `addHole` does not clamp its range, so the model requires `end` to be
  within the columns.
- This version of `singleDetect` has no rule for blocking at ledges.

## Model

| member | source | states |
|---|---|---|
| Common.Abso | include/common.hpp:64-70 | abso(v) is non-negative and is v or -v |
| Common.AbsoSymmetric | include/common.hpp:64-70 | abso(-v) = abso(v), and abso(v) is the larger of v and -v |
| Common.Vec2.Same | include/common.hpp:98-100 | vec2 == holds exactly when both components are equal |
| Common.Vec2.PlusScalar | include/common.hpp:107-109 | vec2 + n adds n to each component and leaves the receiver alone; the result equals the receiver iff n = 0 |
| Common.PlusScalarInverse | include/common.hpp:107-109 | adding n then -n gives the vector back; two scalar additions combine into one |
| Common.Vec2Var.AssignScalar | include/common.hpp:102-105 | assigning a scalar sets both components to it and returns the updated vector |
| Common.ColorVar.SubAssign | include/common.hpp:134-139 | -= lowers every channel by a and returns the channels as they were before |
| Common.ColorVar.AddAssign | include/common.hpp:140-142 | += as written returns the channels plus a and leaves the receiver unchanged |
| Common.AddAssignDropsSum | include/common.hpp:140-142 | for any a != 0, the colour += returns differs from the receiver after the call |
| Common.ColorVar.AddAssignIntended | include/common.hpp:140-142 | += as a compound assignment: every channel rises by a and the new channels are returned |
| Common.ColorVar.Assign | include/common.hpp:143-145 | = sets every channel to a and returns the new channels |
| CText.ToDecimal | src/world.cpp:1053-1055 | std::to_string of an int is non-empty and holds no newline |
| CText.ParseToDecimal | src/world.cpp:1092-1101 | std::stoi (and atoi) read back exactly the int std::to_string wrote |
| CText.ParseLeadingInt | src/world.cpp:1092 | how std::stoi reads a line: blanks, an optional sign, then digits, with what follows ignored; ParseToDecimal and ParseNeedsDigit state its meaning |
| CText.Atoi | src/Quest.cpp:22 | atoi: the number ParseLeadingInt reads, or 0 where there is none; ParseToDecimal proves it reads back what to_string writes |
| CText.ParseNeedsDigit | src/world.cpp:1091-1092 | a line with no digit, such as the sentinel, cannot be read by std::stoi |
| CText.NewlineAtLine | src/world.cpp:1090 | getline's line is exactly the text before the first newline, and the rest follows it |
| CText.Tokens | src/Quest.cpp:17-27 | the tokens strtok returns are non-empty and hold no delimiter |
| CText.TokensOfJoined | src/Quest.cpp:17-27 | strtok over tokens joined by a delimiter gives back exactly those tokens |
| Terrain.Step | src/world.cpp:242 | randGet() % 8 - 4 lies in -4..3 |
| Terrain.RawZero | src/world.cpp:237 | column 0 starts at GROUND_HEIGHT_INITIAL |
| Terrain.RawAt | src/world.cpp:237-242 | after the first loop, each GROUND_HILLINESS-th column holds its anchor height and every other column holds 0 |
| Terrain.AnchorColumnIsProduct | src/world.cpp:241 | the m-th anchor the first loop writes is column m * GROUND_HILLINESS |
| Terrain.OffsetIsRemainder | src/world.cpp:241 | a column's place past its anchor is the remainder by GROUND_HILLINESS |
| Terrain.Clamp | src/world.cpp:258-266 | the bound checks leave a height within [MINIMUM, MAXIMUM], and an in-range height unchanged |
| Terrain.Decorated | src/world.cpp:253-256 | a column gets colour 0..3, grass heights 2..7 and unpressed grass |
| Terrain.Slope | src/world.cpp:247-249 | geninc at an anchor: the rise per column to the next anchor, and 0 where that anchor would lie past the end (the source's out-of-bounds read); AnchorSlope and InterpolatesFrom state its use |
| Terrain.SweepTo | src/world.cpp:246-267 | n iterations of the second loop give n columns, each clamped and decorated |
| Terrain.Generated | src/world.cpp:233-267 | the columns generate produces; its meaning is proved in GeneratedFinished and Interpolated |
| Terrain.SweepPrefix | src/world.cpp:246-267 | later iterations of the second loop never rewrite earlier columns |
| Terrain.SweepExtends | src/world.cpp:246-267 | each iteration of the second loop appends exactly one column |
| Terrain.SweptColumn | src/world.cpp:246-267 | column j of the generated terrain is the one iteration j wrote |
| Terrain.GeneratedFinished | src/world.cpp:233-267 | generate lays out exactly size columns, each finished: height in range, colour 0..3, grass 2..7, unpressed |
| Terrain.AnchorKept | src/world.cpp:241-266 | an anchor whose height is already in range keeps it |
| Terrain.InterpolatesFrom | src/world.cpp:247-251 | from an anchor, each later column of the segment lies on the anchor's line and carries its slope on |
| Terrain.Interpolated | src/world.cpp:246-267 | between two in-range anchors, every column lies on the straight line joining them |
| Terrain.SegmentEnd | src/world.cpp:247-251 | an interpolated segment ends exactly on the next anchor's height |
| Terrain.LineWithinRange | src/world.cpp:249-251 | the line between two heights stays between them |
| Terrain.JoiningLineInRange | src/world.cpp:249-266 | the line joining two in-range heights needs no clamping |
| Terrain.U32 | src/world.cpp:270 | unsigned int reduction lands in [0, 2^32) and agrees with the value modulo 2^32 |
| Terrain.HalfSpan | src/world.cpp:270 | (width - GROUND_HILLINESS) * HLINE / 2 computed in unsigned int is below 2^31 |
| Terrain.WorldStartFor | src/world.cpp:270 | worldStart is minus that unsigned half-span |
| Terrain.WorldStartCentres | src/world.cpp:270 | when the span fits in 32 bits, worldStart is minus half the world's span, so the world runs from worldStart to -worldStart |
| Terrain.TheWidth | src/world.cpp:1039-1041 | getTheWidth is -2 worldStart, non-negative for a world centred on 0 |
| Terrain.TheWidthOfGenerated | src/world.cpp:1039-1041 | a generated world reports its span rounded down to an even number |
| Terrain.Dug | src/world.cpp:1031-1036 | addHole sets height 0 on exactly columns [start, end) and keeps every other column |
| Terrain.DugExactly | src/world.cpp:1031-1036 | in finished terrain the hole's columns are exactly those at height 0, and only heights change |
| Physics.Trunc | src/world.cpp:1054-1055 | (int) of a float truncates toward zero |
| Physics.ColumnIndex | src/world.cpp:750-753 | the column index of an entity is clamped to [0, lineCount - 1] |
| Physics.ColumnUnderCentre | src/world.cpp:750-753 | when the entity's centre lies over the terrain, the index is the column under its centre |
| Physics.Settle | src/world.cpp:759-778 | the vertical phase never changes x or the horizontal speed, and the entity is on the ground afterwards iff it was or was below ground |
| Physics.EdgeClamp | src/world.cpp:784-794 | the edge clamps never change the height, the vertical speed or the ground flag, and either keep or zero the horizontal speed |
| Physics.LiveStep | src/world.cpp:759-794 | a step that is not pinned ends at the height and vertical speed Settle gives; the entity ends on the ground iff it was, was below ground, or was pinned |
| Physics.SnapsToGround | src/world.cpp:759-763 | an entity below ground ends at height - .001 deltaTime, on the ground, with vertical speed 0 |
| Physics.GravityCutoff | src/world.cpp:769-776 | above ground, gravity lowers vel.y by .003 deltaTime only while vel.y > -2 |
| Physics.Pinned | src/world.cpp:771 | the test that pins a structure: not below ground, a structure, and above y 2000; StructurePinned states what follows |
| Physics.StructurePinned | src/world.cpp:771-775 | a structure above y 2000 is put on the ground at rest and skips the edge clamps |
| Physics.StaysWithinEdges | src/world.cpp:784-794 | after the step an entity lies within [worldStart, -worldStart - width - HLINE]; one already inside keeps its x and horizontal speed |
| Physics.EdgeClampIdempotent | src/world.cpp:784-794 | clamping to the edges twice changes nothing more |
| Physics.Land | src/world.cpp:816-824 | a particle below ground is put on it, stopped and frozen; otherwise gravity applies only with gravity set and vely > -2 |
| Physics.LandingIsFinal | src/world.cpp:816-820 | a landed particle never moves again on the same ground |
| Physics.LandAll | src/world.cpp:809-825 | detect's pass keeps every particle, in order, each landed on its own column |
| Physics.Filter | src/world.cpp:306 | remove_if keeps a subsequence, exactly the elements kill does not select |
| Physics.FilterAppend | src/world.cpp:306 | what remove_if keeps stays in input order |
| Physics.FilterIdempotent | src/world.cpp:306 | a second removal with the same test removes nothing more |
| Physics.InBasin | src/world.cpp:313-315 | a fountain's basin test: between its left and right edges and no higher than a quarter of its height above its base |
| Physics.Moved | src/world.cpp:309-310 | the move changes only the particle's position, and a zero delta changes nothing |
| Physics.MoveAll | src/world.cpp:307-321 | the move pass never adds particles, and no survivor that can move lies in a fountain basin |
| Physics.MoveAllAppend | src/world.cpp:307-321 | the move pass works particle by particle, so survivors keep the input order |
| Physics.MovedKept | src/world.cpp:307-321 | a moving particle that ends outside every basin survives, at its moved position |
| Physics.MoveAllFrom | src/world.cpp:307-321 | every survivor is a particle that cannot move, unchanged, or a moving particle at its moved position |
| Physics.StillParticlesKept | src/world.cpp:307-321 | particles that cannot move survive the move pass unchanged |
| Entities.RemoveFirst | src/world.cpp:687-693 | erasing the first match removes one element, or none when x is absent |
| Entities.RemoveFirstAt | src/world.cpp:687-693 | erasing the match at j keeps everything before and after it, in order |
| Entities.RemoveFirstMembers | src/world.cpp:687-693 | in a vector without duplicates, erasing x removes x and nothing else |
| Entities.RemoveFirstNoDup | src/world.cpp:687-693 | erasing keeps a vector free of duplicates |
| Entities.EraseFirst | src/world.cpp:687-693 | the find-and-erase loop reports whether x was there and leaves the vector with its first x removed |
| GameWorld.World.Registered | src/world.cpp:870-917 | the registry the add functions keep: each typed vector holds entities of its kind, structures, npcs and objects are also in entity, merchants also in npc, no vector holds an entity twice, and entity holds no player |
| GameWorld.World.constructor | src/world.cpp:131-137 | a new world has no links and every vector empty, with the registry invariant holding |
| GameWorld.World.Generate | src/world.cpp:220-271 | widths not positive as an int change nothing; otherwise lineCount = width + GROUND_HILLINESS, the columns are Terrain.Generated and worldStart is set |
| GameWorld.SeedAnchors | src/world.cpp:236-242 | the first loop writes each anchor's height and leaves the other columns blank |
| GameWorld.SeedStep | src/world.cpp:241-242 | writing the next anchor extends the seeded part by GROUND_HILLINESS columns |
| GameWorld.SweepColumns | src/world.cpp:246-267 | the second loop leaves exactly the columns of the specification sweep |
| GameWorld.FillColumn | src/world.cpp:247-251 | one iteration: an anchor resets geninc, any other column continues the line |
| GameWorld.ClampColumn | src/world.cpp:258-266 | the bound checks clamp one column's height and change nothing else |
| GameWorld.SweepGrows | src/world.cpp:246-267 | one more iteration extends the swept prefix by the column the specification gives |
| GameWorld.World.AddHole | src/world.cpp:1031-1036 | addHole's loop leaves exactly Terrain.Dug of the old columns |
| GameWorld.Flattened | src/world.cpp:645-654 | the flattening of grassUnpressed over the columns before the last GROUND_HILLINESS; its meaning is proved in PressedAround |
| GameWorld.PressedAround | src/world.cpp:645-654 | exactly the columns within five of the player's are pressed, and only while the player is on the ground; heights and colours never change, and the last GROUND_HILLINESS columns are untouched |
| GameWorld.ShortWorldUntouched | src/world.cpp:649 | in a world of at most GROUND_HILLINESS columns the loop bound is not positive and nothing changes |
| GameWorld.World.FlattenGrass | src/world.cpp:645-654 | the in-place pass leaves exactly Flattened of the old columns |
| GameWorld.World.AddStructure | src/world.cpp:870-880 | a new structure with its texture and door file is appended to build and to entity; nothing else changes |
| GameWorld.World.AddMob | src/world.cpp:882-887 | a new mob is appended to mob and to entity |
| GameWorld.World.AddMobWithHook | src/world.cpp:889-895 | as AddMob, with the hook attached |
| GameWorld.World.AddNPC | src/world.cpp:897-902 | a new NPC is appended to npc and to entity |
| GameWorld.World.AddMerchant | src/world.cpp:904-910 | a new merchant is appended to merchant, npc and entity |
| GameWorld.World.AddObject | src/world.cpp:912-917 | a new object with its item name and text is appended to object and to entity |
| GameWorld.World.AddParticle | src/world.cpp:920-924 | one moving particle with the given values is appended |
| GameWorld.World.AddLight | src/world.cpp:926-932 | a light is appended only when fewer than 64 exist; otherwise nothing changes |
| GameWorld.World.DeleteEntities | src/world.cpp:148-188 | every entity vector, the particles, the lights and the villages end empty |
| GameWorld.World.SetToLeft | src/world.cpp:934-942 | the left link becomes the file (or none) and is returned |
| GameWorld.World.SetToRight | src/world.cpp:943-951 | the right link becomes the file (or none) and is returned |
| GameWorld.World.Save | src/world.cpp:1044-1073 | save's loops build exactly SaveText of the world's npcs, structures and mobs |
| GameWorld.SaveNpcs | src/world.cpp:1052-1056 | the npc loop appends the lines of each npc's dialog index and truncated position, in order |
| GameWorld.SaveBuilds | src/world.cpp:1058-1061 | the structure loop appends the lines of each structure's truncated position, in order |
| GameWorld.SaveMobs | src/world.cpp:1063-1067 | the mob loop appends the lines of each mob's truncated position and alive flag, in order |
| GameWorld.World.Load | src/world.cpp:1080-1131 | load leaves the npcs, structures and mobs as SaveFormat.LoadAll gives them and changes nothing else |
| GameWorld.LoadInto | src/world.cpp:1080-1123 | load over the three vectors, in order, each phase only when the one before got through |
| GameWorld.LoadNpcPhase | src/world.cpp:1089-1102 | the npc loop changes only the npcs |
| GameWorld.LoadBuildPhase | src/world.cpp:1104-1111 | the structure loop changes only the structures |
| GameWorld.LoadMobPhase | src/world.cpp:1113-1123 | the mob loop changes only the mobs |
| GameWorld.World.SingleDetect | src/world.cpp:671-796 | a dead entity is removed (or the game ends), a trigger mob is skipped, and any other living entity takes Physics.LiveStep over its column |
| GameWorld.World.RemoveDead | src/world.cpp:681-735 | a dead entity in entity is erased from it once, and from build/npc/object by kind (mobs stay in mob); otherwise GameOver |
| GameWorld.World.ColumnUnder | src/world.cpp:750-753 | the column computed is Physics.ColumnIndex |
| GameWorld.World.SettleEntity | src/world.cpp:759-778 | the vertical phase leaves exactly Physics.Settle, and reports pinning |
| GameWorld.World.ClampEntity | src/world.cpp:784-794 | the horizontal phase leaves exactly Physics.EdgeClamp |
| GameWorld.World.UpdateParticles | src/world.cpp:305-321 | the particles become MoveAll of those kill spares, in order |
| GameWorld.FountainBasins | src/world.cpp:312-319 | the basins are those of the FOUNTAIN structures, in order |
| GameWorld.InAnyBasinAppend | src/world.cpp:312-319 | a particle is in a basin of two lists iff it is in one of either |
| GameWorld.World.InFountain | src/world.cpp:312-319 | the scan finds a basin iff the particle lies in some FOUNTAIN's basin |
| GameWorld.World.DetectParticles | src/world.cpp:809-825 | every particle is landed on the column under it, as Physics.LandAll |
| GameWorld.Greeted | src/world.cpp:853-862 | the villages greeted are exactly those the player is in now and was not in before |
| GameWorld.World.NoticeVillages | src/world.cpp:853-862 | the greetings are Greeted, and every village records whether the player is inside |
| GameWorld.Village.constructor | src/world.cpp:1481-1486 | a village starts with the inverted interval [width / 2, -width / 2], not entered |
| GameWorld.Village.AddBuilding | src/world.cpp:1458-1466 | adding a structure widens the interval to cover it |
| GameWorld.VillageCovers | src/world.cpp:1458-1466 | the interval covers every structure added, and each end is the start value or a structure's edge |
| GameWorld.EmptyVillageNeverEntered | src/world.cpp:1482-1485 | a village whose interval is still inverted never contains the player |
| SaveFormat.GetLine | src/world.cpp:1090 | getline consumes one line, or sets eof at the end |
| SaveFormat.Stoi | src/world.cpp:1092 | stoi reads an int that fits in 32 bits, or throws |
| SaveFormat.SaveText | src/world.cpp:1044-1073 | the text save writes: one line per value, npcs then structures then mobs, then the sentinel; its meaning is proved in SaveLoadRoundTrip |
| SaveFormat.LoadAll | src/world.cpp:1080-1123 | the three load loops run in order, each only while the previous one got through; its meaning is proved in SaveLoadRoundTrip and ShortFileKeepsRest |
| SaveFormat.LoadEach | src/world.cpp:1089-1123 | a load loop yields one record per entity, in order |
| SaveFormat.LoadEachStopped | src/world.cpp:1089-1123 | once a loop stops, the later entities keep their values |
| SaveFormat.LoadNpcInto | src/world.cpp:1090-1101 | one npc iteration writes the dialog index (attaching or clearing AI), x and y, stopping at the sentinel |
| SaveFormat.LoadBuildInto | src/world.cpp:1105-1110 | one structure iteration writes x, then y |
| SaveFormat.LoadMobInto | src/world.cpp:1114-1122 | one mob iteration writes x, y, then alive |
| SaveFormat.LoadNpcs | src/world.cpp:1089-1102 | the npc loop leaves the npcs as the specification phase gives them |
| SaveFormat.LoadBuilds | src/world.cpp:1104-1111 | the structure loop leaves the structures as the specification phase gives them |
| SaveFormat.LoadMobs | src/world.cpp:1113-1123 | the mob loop leaves the mobs as the specification phase gives them |
| SaveFormat.ReadSaved | src/world.cpp:1090-1092 | getline then stoi reads back the first value save wrote and leaves the stream at the next line |
| SaveFormat.NpcRoundTrip | src/world.cpp:1052-1101 | one npc's three lines are read back into the npc, truncated |
| SaveFormat.BuildRoundTrip | src/world.cpp:1058-1110 | one structure's two lines are read back |
| SaveFormat.MobRoundTrip | src/world.cpp:1063-1122 | one mob's three lines are read back, alive included |
| SaveFormat.NpcsRoundTrip | src/world.cpp:1089-1102 | the npc loop over save's lines restores every npc |
| SaveFormat.BuildsRoundTrip | src/world.cpp:1104-1111 | the structure loop restores every structure |
| SaveFormat.MobsRoundTrip | src/world.cpp:1113-1123 | the mob loop restores every mob |
| SaveFormat.SaveLoadRoundTrip | src/world.cpp:1044-1123 | load after save on the same entities restores each position truncated to int, each dialog index and each alive flag, and stops at the sentinel |
| SaveFormat.ShortFileKeepsRest | src/world.cpp:1089-1111 | a file holding only the npc lines restores the npcs, stops at the sentinel and leaves structures and mobs untouched |
| SaveFormat.LinesAppend | src/world.cpp:1052-1066 | appending a value to what save has written appends exactly its line, whatever renders the value |
| SaveFormat.StopAtFirst | src/world.cpp:1089-1123 | a load loop whose first record stops leaves every record as it was |
| SaveFormat.BuildsStopAtSentinel | src/world.cpp:1104-1111 | a structure loop that meets the sentinel at once stops and changes no structure |
| SaveFormat.SentinelStops | src/world.cpp:1105-1106 | meeting the sentinel, load stops before changing the entity |
| Transitions.Navigation.Open | src/world.cpp:1297-1302 | loading a world remembers its file as the current one |
| Transitions.NearLeftEnd | src/world.cpp:959 | goWorldLeft's test: the player is less than 15 HLINE right of worldStart |
| Transitions.NearRightEnd | src/world.cpp:976 | goWorldRight's test, with -worldStart - 15 HLINE reduced to unsigned int |
| Transitions.RightArrivalAsWritten | src/world.cpp:979 | the x goWorldRight sets is an unsigned int value, in [0, 2^32) |
| Transitions.LeftArrivalAsWritten | src/world.cpp:965 | the x goWorldLeft sets, worldStart minus HLINE times -10, is worldStart + 10 HLINE |
| Transitions.RightArrival | src/world.cpp:979 | the arrival goWorldRight evidently means, worldStart + 10 HLINE without wrap-around; its meaning is proved in ArrivalsMirror |
| Transitions.LeftArrival | src/world.cpp:965 | the arrival goWorldLeft evidently means, -worldStart - 10 HLINE; its meaning is proved in ArrivalsMirror |
| Transitions.NearRightEndWide | src/world.cpp:976 | in a world at least 30 HLINE wide, goWorldRight's test is "within 15 HLINE of the right end" |
| Transitions.NearRightEndNarrow | src/world.cpp:976 | in a narrower world the unsigned bound wraps round near 2^32 |
| Transitions.RightArrivalOvershoots | src/world.cpp:979 | when worldStart + 10 HLINE < 0 the unsigned sum wraps and the player lands past the world's right end |
| Transitions.LeftArrivalAsWrittenAtLeftEnd | src/world.cpp:965 | goWorldLeft as written lands the player at the left end of the new world, inside its own go-left zone |
| Transitions.ArrivalsMirror | src/world.cpp:954-985 | the intended arrivals mirror each other about 0; each lies in the zone leading back, and outside the onward one in a world at least 25 HLINE wide |
| Transitions.GoWorldLeft | src/world.cpp:954-971 | with a left link and the player near the left end, the linked world is loaded and the player placed at x = worldStart + 10 HLINE of it (LeftArrivalAsWritten) at its last column's height; otherwise nothing changes |
| Transitions.GoWorldRight | src/world.cpp:973-985 | with a right link and the player near the right end, the linked world is loaded and the player placed at worldStart + 10 HLINE computed in unsigned int (RightArrivalAsWritten) at GROUND_HEIGHT_MINIMUM; otherwise nothing changes |
| Transitions.FindEnclosing | src/world.cpp:995-997 | the first structure whose width strictly contains the player, or none |
| Transitions.FindDoor | src/world.cpp:1012-1013 | the first structure whose door leads to the file being left, or none |
| Transitions.GoInsideStructure | src/world.cpp:990-1029 | outside: the current file is pushed and the enclosing structure's world opened; inside: the top file is opened and, at a matching door, popped with the player at the door's centre |
| Transitions.Enter | src/world.cpp:1260-1261 | entering an arena pushes the world left and the player's position |
| Transitions.ExitAsWritten | src/world.cpp:1274-1280 | exitArena's pops: each stack loses one entry, and the world and spot returned were on them |
| Transitions.Exit | src/world.cpp:1274-1280 | the intended exit, both stacks popped at the back: each loses one entry, and what is returned was on them |
| Transitions.ExitUndoesEnter | src/world.cpp:1260-1282 | exiting with both stacks popped at the back returns to the world and spot left, with the stacks as before |
| Transitions.NestedExitAsWritten | src/world.cpp:1274-1282 | with two arenas nested, exitArena as written returns to the outer world at the inner arena's entry spot |
| Transitions.SingleExitAgrees | src/world.cpp:1274-1282 | with one arena open, the as-written and intended exits agree |
| Transitions.ArenaWorld | src/world.cpp:1249-1258 | the arena world is generated 800 wide, with the door mob first and the fought mob after it |
| Transitions.AddDoorAndMob | src/world.cpp:1250-1258 | the door mob and the fought mob are appended to mob and entity, in that order |
| Transitions.Arena.constructor | src/world.cpp:1248-1262 | the arena is built, inBattle set, and the world left and player's position pushed |
| Transitions.Arena.ExitArena | src/world.cpp:1270-1288 | at the door the player returns to the world at the front of battleNest, which is erased, and to the spot at the back of battleNestLoc, which is popped (ExitAsWritten); inBattle says whether battleNest still holds a world; elsewhere nothing changes |
| Quests.NeedsBy | src/Quest.cpp:20-30 | the requirement list has one entry per name/count pair of tokens |
| Quests.Needs | src/Quest.cpp:20-30 | the requirements assign reads, with every count read by atoi, one per name/count pair |
| Quests.NeedsPair | src/Quest.cpp:20-28 | a name token followed by a count token adds one requirement holding the count read |
| Quests.NeedsGrow | src/Quest.cpp:21-23 | the count token after a name token completes exactly one more requirement |
| Quests.NeedsAt | src/Quest.cpp:20-28 | requirement i is token 2i with the count read from token 2i + 1 |
| Quests.TrailingNameDropped | src/Quest.cpp:24-30 | a trailing name without a count is dropped, and an empty string gives no requirements |
| Quests.Feed | src/Quest.cpp:20-28 | one strtok iteration keeps the partial list in step with the tokens read |
| Quests.FeedCount | src/Quest.cpp:21-23 | a token after a pending name becomes its count and opens a new entry |
| Quests.FeedName | src/Quest.cpp:24-25 | a token with no name pending becomes the name |
| Quests.PartialDone | src/Quest.cpp:30 | popping the pending entry leaves exactly the requirements |
| Quests.ReadNeeds | src/Quest.cpp:17-30 | the strtok loop yields exactly the requirements NeedsBy gives for the tokens, counts read by the reader assign passes (atoi) |
| Quests.QuestHandler.Assign | src/Quest.cpp:7-34 | exactly one quest with the title, description and requirements read is appended; returns 0 |
| Quests.NeedsOfPairs | src/Quest.cpp:20-30 | reading the name/count tokens of a requirement list gives the list back |
| Quests.AssignReadsRequirement | src/Quest.cpp:17-30 | assign reads back any requirement list written as name,count pairs whose names are tokens |
| Quests.FirstTitled | src/Quest.cpp:37-41 | the index of the first quest with the title, or none when no quest has it |
| Quests.Without | src/Quest.cpp:39 | erasing one quest shortens the list by one |
| Quests.QuestHandler.Drop | src/Quest.cpp:36-44 | the first quest with the title is erased and 0 returned; otherwise -1 and nothing changes |
| Quests.Ready | src/Quest.cpp:49-52 | finish's first loop: every need of the quest is held in at least the amount asked |
| Quests.QuestHandler.Finish | src/Quest.cpp:46-63 | when the first quest with the title has every need in hand, all needs are taken, it is erased and 1 returned; otherwise 0 and nothing changes |
| Quests.QuestHandler.HasQuest | src/Quest.cpp:65-71 | true iff some current quest has the title |
| Quests.DropUndoesAssign | src/Quest.cpp:31-43 | a quest assigned under a new title is the one drop finds, and dropping it restores the list |
| Inventories.Inventory.constructor | src/inventory.cpp:39-43 | s zeroed slots, selection 0 |
| Inventories.Inventory.SetSelection | src/inventory.cpp:53-55 | only sel changes |
| Inventories.Inventory.AddItem | src/inventory.cpp:57-71 | slot os gets id and count, os moves on by one, other slots stay; returns 0 |
| Inventories.FirstSlot | src/inventory.cpp:75-76 | the first slot holding id, or none when no slot does |
| Inventories.FirstSlotIs | src/inventory.cpp:75-76 | a slot holding id with none before it is the first |
| Inventories.Taken | src/inventory.cpp:73-86 | takeItem keeps the number of slots |
| Inventories.Inventory.TakeItem | src/inventory.cpp:73-87 | the first slot holding id loses count (possibly going negative) and 0 is returned; with no such slot, -1 and nothing changes |
| Inventories.TotalUpdate | src/inventory.cpp:80 | overwriting a slot changes an id's total by the difference |
| Inventories.TakeTotal | src/inventory.cpp:73-86 | takeItem lowers the id's total by exactly count when it is held, and every other id's total not at all |
| Inventories.TakeAfterAdd | src/inventory.cpp:57-86 | adding then taking the same count zeroes that slot and keeps all others |
| Textures.CountBelow | include/texture.hpp:44-55 | a map holding every id below n has at least n keys, so increaseID's search ends |
| Textures.LeastFreeFrom | include/texture.hpp:44-55 | the search from i yields an id not in use with every id below it in use |
| Textures.LeastFree | include/texture.hpp:44-55 | the id increaseID finds is the least one without a texture |
| Textures.LeastFreeUnique | include/texture.hpp:44-55 | the least free id is unique |
| Textures.SpriteLoader.IncreaseID | include/texture.hpp:44-55 | the loop returns, and stores as freeID, the least id without a texture |
| Textures.SpriteLoader.LoadSprite | include/texture.hpp:57-67 | the maps and id returned are those of Textures.Load |
| Textures.Load | include/texture.hpp:57-67 | loadSprite: a known path gives its id, a new one the least free id in both maps; its meaning is proved in LoadSeen, LoadNew, LoadConsistent and LoadTwice |
| Textures.LoadSeen | include/texture.hpp:59-60 | a path seen before returns its stored id and adds nothing |
| Textures.LoadNew | include/texture.hpp:61-64 | a new path gets the least free id, unused by any path, recorded in both maps with nothing else changed |
| Textures.LoadConsistent | include/texture.hpp:62-64 | loadSprite keeps every path's id a key of sprites and ids distinct across paths |
| Textures.LoadTwice | include/texture.hpp:57-67 | loading the same path twice returns the same id and changes nothing the second time |
| Textures.SpriteLoader.GetSprite | include/texture.hpp:69-71 | succeeds exactly for ids with a texture and returns it; otherwise the throw |
| Textures.TextureIterator.constructor | include/texture.hpp:88-93 | one texture per path, in order, with the cursor on the first |
| Textures.Next | include/texture.hpp:94-99 | ++ moves one on, or stays on the last, never past it |
| Textures.Prev | include/texture.hpp:100-105 | -- moves one back, or stays on the first, never before it |
| Textures.StepsUndo | include/texture.hpp:94-105 | -- undoes ++ away from the last texture, and ++ undoes -- away from the first |
| Textures.TextureIterator.Inc | include/texture.hpp:94-99 | the cursor moves as Next and binds the new texture when it moved |
| Textures.TextureIterator.Dec | include/texture.hpp:100-105 | the cursor moves as Prev and binds the new texture when it moved |
| Textures.AcceptsOnePastEnd | include/texture.hpp:107 | the as-written range test accepts exactly the valid indices plus size itself |
| Textures.TextureIterator.Select | include/texture.hpp:106-112 | with the corrected test, a valid index moves the cursor there and binds it; any other throws with nothing changed |
| Textures.TextureIterator.GetTexturePath | include/texture.hpp:113-118 | with the corrected test, the path at a valid index; any other throws |
| Player.Down | src/player.cpp:61-155 | the key-press rules of the flags, speed and outside effects; their meaning is proved in the Player lemmas below |
| Player.Up | src/player.cpp:35-59 | the key-release rules of the flags and speed |
| Player.Velocity | src/player.cpp:16-33 | vel.x from the flags and speed, halved when Slow reads 1, or nothing when stoi throws |
| Player.PlayerSystem.KeyDown | src/player.cpp:61-155 | the flags and effect become those of Player.Down |
| Player.PlayerSystem.KeyUp | src/player.cpp:35-59 | the flags become those of Player.Up |
| Player.PlayerSystem.Update | src/player.cpp:16-33 | vel.x becomes Player.Velocity, or the unhalved value when stoi throws; vel.y is kept |
| Player.PressDirection | src/player.cpp:99-115 | without a blocking dialog or fade, left sets moveLeft and clears moveRight; right does the reverse |
| Player.FadeIgnoresDirection | src/player.cpp:100-113 | during a fade the direction keys change nothing |
| Player.ReleaseDirection | src/player.cpp:39-42 | releasing a direction clears only its own flag |
| Player.SprintAndCrouch | src/player.cpp:125-129 | sprint sets 2 only when allowed, crouch sets 0.5, and releasing either resets to 1 |
| Player.BlockedKeys | src/player.cpp:84-152 | with a blocking dialog no flag changes; Delete ends the game and T ticks time by 50 |
| Player.EffectsOnlyWhenBlocked | src/player.cpp:84-148 | without a blocking dialog a key press starts no outside action |
| Player.SpeedStaysAFactor | src/player.cpp:35-155 | the speed factor is always 1, 2 or 0.5 |
| Player.Walk | src/player.cpp:22-29 | vel.x before the Slow setting: the flags' direction times the speed constant times the speed factor; WalkDirection and BothDirectionsStand state its meaning |
| Player.WalkDirection | src/player.cpp:22-29 | vel.x is negative iff only moveLeft, positive iff only moveRight, and at most 2C in size |
| Player.BothDirectionsStand | src/player.cpp:22-27 | both flags together give velocity 0 |
| Player.SlowHalves | src/player.cpp:31-32 | a Slow setting of 1 halves the velocity; any other number leaves it |
| Player.SlowUnset | src/player.cpp:31 | an empty Slow setting makes update throw |
| Player.PressReleaseStands | src/player.cpp:39-102 | pressing then releasing left from standing leaves the player standing |
| Player.TurnRound | src/player.cpp:40-115 | pressing right while holding left turns the player right, and releasing left keeps them walking right |

## Left out

- Drawing, music, texture loading, the UI fades and text, and the
  entityx engine are rendering or foreign library calls. `Texturec`,
  `getTextureDim`, `Inventory::draw`, `World::draw` (except grass
  flattening), `setBGM` and `setStyle` are not modelled.
- The thread per entity in `World::detect` is concurrency. The model runs
  `singleDetect` on one entity at a time.
- The `rand()`-driven fountain and fire-pit emitters in `detect` are
  nondeterministic and UI.
- The entity movement part of `update` (src/world.cpp:285-303) is not
  modelled. It is a position update outside the particle rules.
- The star vector, `inWorld` back-pointers, the `delete`s and the worlds
  that `loadWorldFromXML` leaks are memory management.
- The village's dangling pointers after `deleteEntities` are not modelled:
  Dafny has no deallocation.
- XML parsing in `loadWorldFromXMLNoSave` is I/O. So are reading and writing
  the .dat file and the save `loadWorldFromXML` makes of the current world.
  The file is text passed to `Load` and returned by `Save`.
- GameWorld.World.Load: the final `while (getline)` loop only consumes the
  rest of a string stream, so it is not modelled.
- GameWorld.World.Generate: `UserError` is modelled as returning with
  nothing changed, because its body is not part of this model.
- GameWorld.World.Generate: the model requires `width + GROUND_HILLINESS <
  2^32`, so the unsigned size does not wrap.
- GameWorld.World.Generate: the last segment reads past the end of the
  vector (undefined behaviour); the model gives that segment slope 0.
- GameWorld.World.Registered assumes each vector holds no duplicates. The
  source never adds an entity twice.
- GameWorld.World.AddParticle: the emitter flags `gravity`, `behind` and
  `fountain` start as gravity on, the others off. `Particles` is declared in
  a header that is not part of this model.
- GameWorld.World.UpdateParticles: erasing inside the iterating loop is
  undefined behaviour; the model drops the caught particle and carries on.
- SaveFormat.LoadNpcInto: `addAIFunc` is modelled as a count of attached
  functions.
- SaveFormat.Stoi assumes positions that fit in an `int`. A float-to-int
  cast out of range is undefined behaviour and is not modelled.
- Transitions.GoInsideStructure: the UI fades and the `current` buffer it
  leaks are not modelled.
- Quests.QuestHandler.Assign: the `strcpy` into a buffer one byte short is
  undefined behaviour and is modelled as the intended copy. A NUL inside
  `req` would also stop `strtok`; strings here hold no NUL.
- Quests.QuestHandler.Finish: the name-keyed inventory of
  include/inventory.hpp is not part of this model. `hasItem` is a parameter,
  and the `takeItem` calls are returned in order.
- Inventories.Inventory.TakeItem: the count is an unbounded `int`, so the
  model does not capture the signed overflow of the slot count.
- Inventories.Inventory.TakeItem: `item[i]` is read with the slot index. A
  slot index past the item table reads out of bounds; the model reads 0
  there.
- Inventories.Inventory.constructor: the item texture loading is not
  modelled.
- Textures.SpriteLoader.IncreaseID: ids are `nat`, not `uint64_t`, so the
  model does not capture the wrap past 2^64 ids.
- Textures.TextureIterator.Inc needs a non-empty list, because `++` on an
  empty vector is undefined behaviour. Textures.TextureIterator.Dec needs
  one too. The default constructor is the list constructor given no paths.
- Player.PlayerSystem.constructor: the initial flag values are declared in
  player.hpp, which is not part of this model. The model starts standing at
  speed 1.
- Player.PlayerSystem.Update and Player.Velocity: float rounding of 0.15
  and of the halving is not modelled. A `std::stoi` out-of-range throw
  counts as not reading a number only when no digit leads: a Slow value
  outside int range is read as a number.
- Textures.TextureIterator.Select and Textures.TextureIterator.GetTexturePath:
  at index == size the source's test lets the index through and then reads
  one past the end, which is undefined behaviour. The model throws there,
  as the corrected test does (see Findings).
- `arrAmt` returns the length of a C array. Dafny sequences and arrays carry
  their length, so it has no counterpart.
- OpenGL texture names and the bound texture are plain numbers.

## Findings

| source | as written | input that shows it | evidently intended | confidence | as-written member | corrected member |
|---|---|---|---|---|---|---|
| src/world.cpp:979 | `tmp->worldStart + HLINE * 10` is computed in unsigned int | any world whose worldStart is below -10 HLINE: the sum wraps to 2^32 + worldStart + 10 HLINE, past the world's right end | the player lands 10 HLINE right of the new world's left end | not executed; high | Transitions.RightArrivalOvershoots | Transitions.ArrivalsMirror |
| src/world.cpp:965 | goWorldLeft sets x to `tmp->worldStart - HLINE * -10.0f`, the LEFT end of the world entered, while y comes from its last (rightmost) column | any world at least 30 HLINE wide: the player arrives inside the new world's own go-left zone | x = -worldStart - 10 HLINE, the mirror of goWorldRight's arrival | not executed; medium | Transitions.LeftArrivalAsWrittenAtLeftEnd | Transitions.ArrivalsMirror |
| src/world.cpp:1274-1282 | exitArena takes the world from the FRONT of battleNest but the position from the BACK of battleNestLoc | an arena entered from inside another arena: exit returns to the outer world at the inner entry spot | both stacks popped at the back | not executed; high | Transitions.NestedExitAsWritten | Transitions.ExitUndoesEnter |
| include/texture.hpp:107 | `index > textures.size()` lets index == size through | index = textures.size(): operator() binds and getTexturePath reads one past the end | `index >= textures.size()` throws | not executed; high | Textures.AcceptsOnePastEnd | Textures.TextureIterator.Select |
| include/common.hpp:140-142 | `operator+=` returns the sum but never stores it | c = (0, 0, 0), a = 1: c stays (0, 0, 0) and (1, 1, 1) is returned | the channels rise by a, as -= lowers them | not executed; high | Common.AddAssignDropsSum | Common.ColorVar.AddAssignIntended |
