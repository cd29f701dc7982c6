/// The save file of a world (World::save and World::load in src/world.cpp):
/// the integers to_string writes, one per line, in the fixed order npc,
/// build, mob, then the line "dOnE"; and what load makes of a file, read
/// line by line with std::getline and std::stoi.

module SaveFormat {
  import opened Common
  import opened CText
  import opened Physics
  import opened Entities

  /** The last line save writes, at which load stops. */
  const Sentinel: string := "dOnE"

  /** The dialog index that load treats as "no dialog": such an npc loses
      its AI functions instead of gaining commonAIFunc. */
  const NoDialog: int := 9999

  predicate InI32(v: int) {
    -0x8000_0000 <= v < 0x8000_0000
  }

  /** The state of an npc, a structure and a mob that save writes or load
      overwrites. aiFuncs counts the functions attached to the npc. */
  datatype NpcRec = NpcRec(dialogIndex: int, x: real, y: real, aiFuncs: nat)
  datatype BuildRec = BuildRec(x: real, y: real)
  datatype MobRec = MobRec(x: real, y: real, alive: bool)

  /** The three vectors of a world, as load and save see them. */
  datatype Saved = Saved(npcs: seq<NpcRec>, builds: seq<BuildRec>, mobs: seq<MobRec>)

  function NpcOf(e: Entity): NpcRec
    reads e
  {
    NpcRec(e.dialogIndex, e.loc.x, e.loc.y, e.aiFuncs)
  }

  function BuildOf(e: Entity): BuildRec
    reads e
  {
    BuildRec(e.loc.x, e.loc.y)
  }

  function MobOf(e: Entity): MobRec
    reads e
  {
    MobRec(e.loc.x, e.loc.y, e.alive)
  }

  function NpcsOf(es: seq<Entity>): (r: seq<NpcRec>)
    reads es
    ensures |r| == |es| && forall j :: 0 <= j < |es| ==> r[j] == NpcOf(es[j])
  {
    if |es| == 0 then [] else NpcsOf(es[..|es| - 1]) + [NpcOf(es[|es| - 1])]
  }

  function BuildsOf(es: seq<Entity>): (r: seq<BuildRec>)
    reads es
    ensures |r| == |es| && forall j :: 0 <= j < |es| ==> r[j] == BuildOf(es[j])
  {
    if |es| == 0 then [] else BuildsOf(es[..|es| - 1]) + [BuildOf(es[|es| - 1])]
  }

  function MobsOf(es: seq<Entity>): (r: seq<MobRec>)
    reads es
    ensures |r| == |es| && forall j :: 0 <= j < |es| ==> r[j] == MobOf(es[j])
  {
    if |es| == 0 then [] else MobsOf(es[..|es| - 1]) + [MobOf(es[|es| - 1])]
  }

  // ---------------------------------------------------------------- save

  /** The lines save writes for one npc, structure and mob: positions
      truncated to int, alive as 1 or 0. */
  function NpcFields(n: NpcRec): seq<int> {
    [n.dialogIndex, Trunc(n.x), Trunc(n.y)]
  }

  function BuildFields(b: BuildRec): seq<int> {
    [Trunc(b.x), Trunc(b.y)]
  }

  function MobFields(m: MobRec): seq<int> {
    [Trunc(m.x), Trunc(m.y), if m.alive then 1 else 0]
  }

  /** The fields of each record in turn. */
  function Flat<R>(rs: seq<R>, fields: R -> seq<int>): seq<int> {
    if |rs| == 0 then [] else Flat(rs[..|rs| - 1], fields) + fields(rs[|rs| - 1])
  }

  /** Every integer save writes, in order. */
  function SaveValues(s: Saved): seq<int> {
    Flat(s.npcs, NpcFields) + Flat(s.builds, BuildFields) + Flat(s.mobs, MobFields)
  }

  /** The lines of a sequence of values, each rendered by line and
      followed by a newline. */
  function Lines(vs: seq<int>, line: int -> string): string
  {
    if |vs| == 0 then "" else line(vs[0]) + "\n" + Lines(vs[1..], line)
  }

  /** The text save builds from the values: the to_string of each value
      followed by a newline. */
  function Text(vs: seq<int>): string
  {
    Lines(vs, ToDecimal)
  }

  /** The text of the .dat file: each value on its own line, then the
      sentinel with no newline after it. */
  function SaveText(s: Saved): string {
    Text(SaveValues(s)) + Sentinel
  }

  /** The save text written vector by vector. */
  lemma SaveTextOf(s: Saved, fn: seq<int>, fb: seq<int>)
    requires fn == [] + Flat(s.npcs, NpcFields) && fb == fn + Flat(s.builds, BuildFields)
    ensures SaveText(s) == Text(fb + Flat(s.mobs, MobFields)) + Sentinel
  {
    assert [] + Flat(s.npcs, NpcFields) == Flat(s.npcs, NpcFields);
    assert fb + Flat(s.mobs, MobFields) == SaveValues(s);
  }

  /** Appending one more value appends its line. */
  lemma {:induction false} LinesAppend(vs: seq<int>, v: int, line: int -> string)
    ensures Lines(vs + [v], line) == Lines(vs, line) + line(v) + "\n"
  {
    if |vs| == 0 {
      assert vs + [v] == [v] && [v][1..] == [];
    } else {
      var ws := vs + [v];
      assert ws[0] == vs[0] && ws[1..] == vs[1..] + [v];
      LinesAppend(vs[1..], v, line);
      LineBehind(line(vs[0]) + "\n", Lines(vs[1..], line), line(v), Lines(ws[1..], line));
    }
  }

  /** A line appended behind a text that starts with another line. */
  lemma LineBehind(h: string, t: string, d: string, rest: string)
    requires rest == t + d + "\n"
    ensures h + rest == h + t + d + "\n"
  {
  }

  /** data.append(std::to_string(v) + "\n") writes the line of one more
      value. */
  lemma Emit(vs: seq<int>, v: int)
    ensures Text(vs + [v]) == Text(vs) + ToDecimal(v) + "\n"
  {
    LinesAppend(vs, v, ToDecimal);
  }

  /** Two appends in a row. */
  lemma EmitTwo(vs: seq<int>, a: int, b: int)
    ensures Text(vs + [a, b]) == Text(vs) + ToDecimal(a) + "\n" + ToDecimal(b) + "\n"
  {
    Emit(vs, a);
    Emit(vs + [a], b);
    assert vs + [a] + [b] == vs + [a, b];
  }

  /** Three appends in a row. */
  lemma EmitThree(vs: seq<int>, a: int, b: int, c: int)
    ensures Text(vs + [a, b, c]) == Text(vs) + ToDecimal(a) + "\n" + ToDecimal(b) + "\n" + ToDecimal(c) + "\n"
  {
    EmitTwo(vs, a, b);
    Emit(vs + [a, b], c);
    assert vs + [a, b] + [c] == vs + [a, b, c];
  }

  lemma Regroup(a: string, b: string, c: string)
    ensures a + b + c == a + (b + c)
  {
  }

  /** Adding one more record's fields after what save has written. */
  lemma FlatNext<R>(rs: seq<R>, i: nat, fields: R -> seq<int>)
    requires i < |rs|
    ensures Flat(rs[..i + 1], fields) == Flat(rs[..i], fields) + fields(rs[i])
  {
    assert rs[..i + 1][..i] == rs[..i];
  }

  /** Nothing more written. */
  lemma NoneAfter(vals: seq<int>)
    ensures vals + [] == vals
  {
  }

  /** The same, after the lines vals of the vectors saved before. */
  lemma FlatNextAfter<R>(vals: seq<int>, rs: seq<R>, i: nat, fields: R -> seq<int>)
    requires i < |rs|
    ensures vals + Flat(rs[..i + 1], fields) == vals + Flat(rs[..i], fields) + fields(rs[i])
  {
    FlatNext(rs, i, fields);
    assert vals + (Flat(rs[..i], fields) + fields(rs[i])) == vals + Flat(rs[..i], fields) + fields(rs[i]);
  }


  // ---------------------------------------------------------------- load

  /** An istringstream over the file read by std::getline: the text not yet
      consumed, whether eofbit is set, and the string the last getline left
      in line. */
  datatype Reader = Reader(rest: string, eof: bool, line: string)

  function Open(text: string): Reader {
    Reader(text, false, "")
  }

  /** std::getline(iss, line): once eofbit is set the stream is not good
      and line keeps its old value; at the very end of the text line is
      erased and eofbit set; otherwise line gets the text up to the next
      newline, which is consumed, or up to the end, which sets eofbit. */
  function GetLine(r: Reader): (r': Reader)
    ensures |r'.rest| <= |r.rest|
    ensures r.eof ==> r' == r
  {
    if r.eof then r
    else if |r.rest| == 0 then Reader("", true, "")
    else
      var k := NewlineAt(r.rest);
      if k < |r.rest| then Reader(r.rest[k + 1..], false, r.rest[..k])
      else Reader("", true, r.rest)
  }

  /** std::stoi: None stands for the std::invalid_argument it throws when
      no digit can be read and the std::out_of_range it throws when the
      value does not fit in an int. */
  function Stoi(s: string): (r: Option<int>)
    ensures r.Some? ==> InI32(r.value) && ParseLeadingInt(s) == Some(r.value)
    ensures r.None? ==> ParseLeadingInt(s).None? || !InI32(ParseLeadingInt(s).value)
  {
    match ParseLeadingInt(s)
    case None => None
    case Some(v) => if InI32(v) then Some(v) else None
  }

  /** What one getline-then-stoi of load yields: the sentinel, a value, or
      the exception stoi throws. */
  datatype Read = Done | Got(v: int) | Bad

  /** The stream after one getline, and what load makes of the line. */
  datatype Input = Input(reader: Reader, read: Read)

  function ReadInt(r: Reader): Input {
    var r1 := GetLine(r);
    if r1.line == Sentinel then Input(r1, Done)
    else match Stoi(r1.line)
      case None => Input(r1, Bad)
      case Some(v) => Input(r1, Got(v))
  }

  /** Going: load carries on; Stopped: it met the sentinel and returned;
      Failed: stoi threw and the exception left load. */
  datatype Status = Going | Stopped | Failed

  function StatusOf(x: Read): Status {
    if x.Done? then Stopped else Failed
  }

  /** One record after load has read its lines, the stream and whether to
      carry on. */
  datatype RecordRead<R> = RecordRead(rec: R, reader: Reader, status: Status)

  /** One iteration of load's npc loop: dialogIndex (attaching commonAIFunc
      unless it is NoDialog, clearing the AI functions if it is), x, y;
      each assignment made before a stop stays. */
  function LoadNpc(n: NpcRec, r: Reader): RecordRead<NpcRec> {
    LoadNpcBy(n, r, ReadInt, LoadNpcX)
  }

  /** The same, with the reading of the dialog index given as read and the
      rest of the iteration as rest. */
  function LoadNpcBy(n: NpcRec, r: Reader, read: Reader -> Input, rest: (NpcRec, Reader) -> RecordRead<NpcRec>): RecordRead<NpcRec> {
    var in1 := read(r); var r1, a := in1.reader, in1.read;
    if !a.Got? then RecordRead(n, r1, StatusOf(a))
    else rest(n.(dialogIndex := a.v, aiFuncs := if a.v != NoDialog then n.aiFuncs + 1 else 0), r1)
  }

  /** The rest of the npc iteration once dialogIndex is read: x, then y. */
  function LoadNpcX(n: NpcRec, r: Reader): RecordRead<NpcRec> {
    var in1 := ReadInt(r); var r1, b := in1.reader, in1.read;
    if !b.Got? then RecordRead(n, r1, StatusOf(b))
    else LoadNpcY(n.(x := b.v as real), r1)
  }

  function LoadNpcY(n: NpcRec, r: Reader): RecordRead<NpcRec> {
    var in1 := ReadInt(r); var r1, c := in1.reader, in1.read;
    if !c.Got? then RecordRead(n, r1, StatusOf(c))
    else RecordRead(n.(y := c.v as real), r1, Going)
  }

  /** One iteration of load's build loop: x, then y. */
  function LoadBuild(b: BuildRec, r: Reader): RecordRead<BuildRec> {
    var in1 := ReadInt(r); var r1, a := in1.reader, in1.read;
    if !a.Got? then RecordRead(b, r1, StatusOf(a))
    else LoadBuildY(b.(x := a.v as real), r1)
  }

  function LoadBuildY(b: BuildRec, r: Reader): RecordRead<BuildRec> {
    var in1 := ReadInt(r); var r1, c := in1.reader, in1.read;
    if !c.Got? then RecordRead(b, r1, StatusOf(c))
    else RecordRead(b.(y := c.v as real), r1, Going)
  }

  /** One iteration of load's mob loop: x, y, then alive (any non-zero value
      is true). */
  function LoadMob(m: MobRec, r: Reader): RecordRead<MobRec> {
    var in1 := ReadInt(r); var r1, a := in1.reader, in1.read;
    if !a.Got? then RecordRead(m, r1, StatusOf(a))
    else LoadMobY(m.(x := a.v as real), r1)
  }

  function LoadMobY(m: MobRec, r: Reader): RecordRead<MobRec> {
    var in1 := ReadInt(r); var r1, b := in1.reader, in1.read;
    if !b.Got? then RecordRead(m, r1, StatusOf(b))
    else LoadMobAlive(m.(y := b.v as real), r1)
  }

  function LoadMobAlive(m: MobRec, r: Reader): RecordRead<MobRec> {
    var in1 := ReadInt(r); var r1, c := in1.reader, in1.read;
    if !c.Got? then RecordRead(m, r1, StatusOf(c))
    else RecordRead(m.(alive := c.v != 0), r1, Going)
  }

  datatype Phase<R> = Phase(recs: seq<R>, reader: Reader, status: Status)

  /** One of load's loops over a vector: each record in turn until a step
      stops; the records after it are left as they were. */
  function LoadEach<R>(rs: seq<R>, r: Reader, step: (R, Reader) -> RecordRead<R>): (p: Phase<R>)
    ensures |p.recs| == |rs|
  {
    if |rs| == 0 then Phase([], r, Going)
    else
      var pre := LoadEach(rs[..|rs| - 1], r, step);
      var last := rs[|rs| - 1];
      if pre.status != Going then Phase(pre.recs + [last], pre.reader, pre.status)
      else
        var s := step(last, pre.reader);
        Phase(pre.recs + [s.rec], s.reader, s.status)
  }

  datatype Loaded = Loaded(saved: Saved, status: Status)

  /** load over the whole file: the npc loop, then the build loop, then the
      mob loop, each run only when the one before got through. */
  function LoadAll(s: Saved, text: string): Loaded {
    var p1 := LoadEach(s.npcs, Open(text), LoadNpc);
    if p1.status != Going then Loaded(s.(npcs := p1.recs), p1.status)
    else
      var p2 := LoadEach(s.builds, p1.reader, LoadBuild);
      if p2.status != Going then Loaded(s.(npcs := p1.recs, builds := p2.recs), p2.status)
      else
        var p3 := LoadEach(s.mobs, p2.reader, LoadMob);
        Loaded(Saved(p1.recs, p2.recs, p3.recs), p3.status)
  }

  /** Once a loop has stopped, the records after the stop keep their values
      and the stream and status stay as they were. */
  lemma {:induction false} LoadEachStopped<R>(rs: seq<R>, r: Reader, step: (R, Reader) -> RecordRead<R>, i: nat)
    requires i <= |rs| && LoadEach(rs[..i], r, step).status != Going
    ensures var p := LoadEach(rs[..i], r, step);
            LoadEach(rs, r, step) == Phase(p.recs + rs[i..], p.reader, p.status)
    decreases |rs| - i
  {
    if i < |rs| {
      assert rs[..|rs| - 1][..i] == rs[..i];
      LoadEachStopped(rs[..|rs| - 1], r, step, i);
      assert rs[..|rs| - 1][i..] + [rs[|rs| - 1]] == rs[i..];
    } else {
      assert rs[..i] == rs;
    }
  }

  /** The body of load's npc loop on the npc n, reading from r: each
      getline is followed by the sentinel test and stoi, as in ReadInt. */
  method LoadNpcInto(n: Entity, r: Reader) returns (r': Reader, status: Status)
    modifies n`dialogIndex, n`aiFuncs, n`loc
    ensures RecordRead(NpcOf(n), r', status) == LoadNpc(old(NpcOf(n)), r)
  {
    ghost var before := NpcOf(n);
    var in1 := ReadInt(r); var r1, a := in1.reader, in1.read;
    r' := r1;
    if !a.Got? {
      LoadNpcNotGot(before, r);
      return r', StatusOf(a);
    }
    ghost var n1 := before.(dialogIndex := a.v, aiFuncs := if a.v != NoDialog then before.aiFuncs + 1 else 0);
    LoadNpcGot(before, r);
    assert LoadNpc(before, r) == LoadNpcX(n1, r1);
    n.dialogIndex := a.v;
    if n.dialogIndex != NoDialog {
      n.aiFuncs := n.aiFuncs + 1;
    } else {
      n.aiFuncs := 0;
    }
    assert NpcOf(n) == n1;
    r', status := LoadNpcXInto(n, r');
  }

  /** A dialog index read: the rest of the npc iteration goes on from the
      record with that index and its AI functions set. */
  lemma LoadNpcGot(nr: NpcRec, r: Reader)
    requires ReadInt(r).read.Got?
    ensures var v := ReadInt(r).read.v;
            LoadNpc(nr, r) == LoadNpcX(nr.(dialogIndex := v, aiFuncs := if v != NoDialog then nr.aiFuncs + 1 else 0), ReadInt(r).reader)
  {
    LoadNpcGotBy(nr, r, ReadInt, LoadNpcX);
  }

  /** A dialog index line that is not a number ends the record unchanged. */
  lemma LoadNpcNotGot(nr: NpcRec, r: Reader)
    requires !ReadInt(r).read.Got?
    ensures LoadNpc(nr, r) == RecordRead(nr, ReadInt(r).reader, StatusOf(ReadInt(r).read))
  {
    LoadNpcNotGotBy(nr, r, ReadInt, LoadNpcX);
  }

  lemma LoadNpcNotGotBy(nr: NpcRec, r: Reader, read: Reader -> Input, rest: (NpcRec, Reader) -> RecordRead<NpcRec>)
    requires !read(r).read.Got?
    ensures LoadNpcBy(nr, r, read, rest) == RecordRead(nr, read(r).reader, StatusOf(read(r).read))
  {
  }

  lemma LoadNpcGotBy(nr: NpcRec, r: Reader, read: Reader -> Input, rest: (NpcRec, Reader) -> RecordRead<NpcRec>)
    requires read(r).read.Got?
    ensures var v := read(r).read.v;
            LoadNpcBy(nr, r, read, rest) == rest(nr.(dialogIndex := v, aiFuncs := if v != NoDialog then nr.aiFuncs + 1 else 0), read(r).reader)
  {
  }

  /** The rest of the npc iteration once dialogIndex is read: x, then y. */
  method LoadNpcXInto(n: Entity, r: Reader) returns (r': Reader, status: Status)
    modifies n`loc
    ensures RecordRead(NpcOf(n), r', status) == LoadNpcX(old(NpcOf(n)), r)
  {
    var in2 := ReadInt(r); var r2, b := in2.reader, in2.read;
    r' := r2;
    if !b.Got? { return r', StatusOf(b); }
    n.loc := n.loc.(x := b.v as real);
    r', status := LoadNpcYInto(n, r');
  }

  method LoadNpcYInto(n: Entity, r: Reader) returns (r': Reader, status: Status)
    modifies n`loc
    ensures RecordRead(NpcOf(n), r', status) == LoadNpcY(old(NpcOf(n)), r)
  {
    var in3 := ReadInt(r); var r3, c := in3.reader, in3.read;
    r' := r3;
    if !c.Got? { return r', StatusOf(c); }
    n.loc := n.loc.(y := c.v as real);
    status := Going;
  }

  /** The body of load's build loop on the structure b. */
  method LoadBuildInto(b: Entity, r: Reader) returns (r': Reader, status: Status)
    modifies b`loc
    ensures RecordRead(BuildOf(b), r', status) == LoadBuild(old(BuildOf(b)), r)
  {
    var in1 := ReadInt(r); var r1, a := in1.reader, in1.read;
    r' := r1;
    if !a.Got? { return r', StatusOf(a); }
    b.loc := b.loc.(x := a.v as real);
    var in2 := ReadInt(r'); var r2, c := in2.reader, in2.read;
    r' := r2;
    if !c.Got? { return r', StatusOf(c); }
    b.loc := b.loc.(y := c.v as real);
    status := Going;
  }

  /** The body of load's mob loop on the mob m. */
  method LoadMobInto(m: Entity, r: Reader) returns (r': Reader, status: Status)
    modifies m`loc, m`alive
    ensures RecordRead(MobOf(m), r', status) == LoadMob(old(MobOf(m)), r)
  {
    var in1 := ReadInt(r); var r1, a := in1.reader, in1.read;
    r' := r1;
    if !a.Got? { return r', StatusOf(a); }
    m.loc := m.loc.(x := a.v as real);
    ghost var goal := LoadMobY(MobOf(m), r');
    assert goal == LoadMob(old(MobOf(m)), r);
    var in2 := ReadInt(r'); var r2, b := in2.reader, in2.read;
    r' := r2;
    if !b.Got? { return r', StatusOf(b); }
    m.loc := m.loc.(y := b.v as real);
    assert goal == LoadMobAlive(MobOf(m), r');
    var in3 := ReadInt(r'); var r3, c := in3.reader, in3.read;
    r' := r3;
    if !c.Got? { return r', StatusOf(c); }
    m.alive := c.v != 0;
    status := Going;
  }

  /** load's npc loop, over the npcs es (each held once), from r. */
  method LoadNpcs(es: seq<Entity>, r: Reader) returns (r': Reader, status: Status)
    requires NoDup(es)
    modifies es
    ensures RecordsLoaded(NpcsOf(es), r', status, LoadEach(old(NpcsOf(es)), r, LoadNpc))
  {
    ghost var s0 := NpcsOf(es);
    ghost var p := LoadEach(s0[..0], r, LoadNpc);
    ghost var cur := s0;
    NpcsStart(es, s0, r, p);
    r', status := r, Going;
    var i := 0;
    while i < |es| && status == Going
      invariant NpcsProgress(es, s0, r, i, p, cur) && p.reader == r' && p.status == status
    {
      r', status, p, cur := LoadNpcNext(es, s0, r, i, p, cur, r');
      i := i + 1;
    }
    NpcsFinished(es, s0, r, i, p, cur);
  }

  /** Before the loop, nothing is loaded and every record keeps its value. */
  lemma NpcsStart(es: seq<Entity>, s0: seq<NpcRec>, r: Reader, p: Phase<NpcRec>)
    requires s0 == NpcsOf(es) && p == LoadEach(s0[..0], r, LoadNpc)
    ensures NpcsProgress(es, s0, r, 0, p, s0) && p.reader == r && p.status == Going
  {
  }

  /** When the loop ends, the records are those of the whole phase. */
  lemma NpcsFinished(es: seq<Entity>, s0: seq<NpcRec>, r: Reader, i: nat, p: Phase<NpcRec>, cur: seq<NpcRec>)
    requires NpcsProgress(es, s0, r, i, p, cur) && (i == |es| || p.status != Going)
    ensures RecordsLoaded(NpcsOf(es), p.reader, p.status, LoadEach(s0, r, LoadNpc))
  {
    LoadEachDone(s0, r, LoadNpc, i, p);
    NpcsOfIs(es, cur);
  }

  /** How far load's npc loop has got: the first i records are loaded
      (p), the others keep their values (s0), and cur holds them all. */
  ghost predicate NpcsProgress(es: seq<Entity>, s0: seq<NpcRec>, r: Reader, i: nat, p: Phase<NpcRec>, cur: seq<NpcRec>)
    reads es
  {
    && i <= |es| == |cur| == |s0|
    && p == LoadEach(s0[..i], r, LoadNpc) && cur == p.recs + s0[i..]
    && forall j :: 0 <= j < |es| ==> NpcOf(es[j]) == cur[j]
  }

  /** One iteration of load's npc loop. */
  method LoadNpcNext(es: seq<Entity>, ghost s0: seq<NpcRec>, ghost r: Reader, i: nat, ghost p: Phase<NpcRec>, ghost cur: seq<NpcRec>, r0: Reader)
      returns (r': Reader, status: Status, ghost p': Phase<NpcRec>, ghost cur': seq<NpcRec>)
    requires NoDup(es) && NpcsProgress(es, s0, r, i, p, cur) && i < |es| && p.reader == r0 && p.status == Going
    modifies es
    ensures NpcsProgress(es, s0, r, i + 1, p', cur') && p'.reader == r' && p'.status == status
  {
    ghost var x := LoadNpc(s0[i], r0);
    assert cur[i] == s0[i];
    r', status := LoadNpcInto(es[i], r0);
    forall j | 0 <= j < |es| && j != i ensures NpcOf(es[j]) == cur[j] {
      assert es[j] != es[i];
    }
    cur' := cur[i := x.rec];
    LoadEachNext(s0, r, LoadNpc, i, p, x);
    ReplaceNext(p.recs, s0, i, x.rec);
    p' := Phase(p.recs + [x.rec], x.reader, x.status);
  }



  /** load's build loop, over the structures es, from r. */
  method LoadBuilds(es: seq<Entity>, r: Reader) returns (r': Reader, status: Status)
    requires NoDup(es)
    modifies es
    ensures RecordsLoaded(BuildsOf(es), r', status, LoadEach(old(BuildsOf(es)), r, LoadBuild))
  {
    ghost var s0 := BuildsOf(es);
    ghost var p := LoadEach(s0[..0], r, LoadBuild);
    ghost var cur := s0;
    BuildsStart(es, s0, r, p);
    r', status := r, Going;
    var i := 0;
    while i < |es| && status == Going
      invariant BuildsProgress(es, s0, r, i, p, cur) && p.reader == r' && p.status == status
    {
      r', status, p, cur := LoadBuildNext(es, s0, r, i, p, cur, r');
      i := i + 1;
    }
    BuildsFinished(es, s0, r, i, p, cur);
  }

  /** Before the loop, nothing is loaded and every record keeps its value. */
  lemma BuildsStart(es: seq<Entity>, s0: seq<BuildRec>, r: Reader, p: Phase<BuildRec>)
    requires s0 == BuildsOf(es) && p == LoadEach(s0[..0], r, LoadBuild)
    ensures BuildsProgress(es, s0, r, 0, p, s0) && p.reader == r && p.status == Going
  {
  }

  /** When the loop ends, the records are those of the whole phase. */
  lemma BuildsFinished(es: seq<Entity>, s0: seq<BuildRec>, r: Reader, i: nat, p: Phase<BuildRec>, cur: seq<BuildRec>)
    requires BuildsProgress(es, s0, r, i, p, cur) && (i == |es| || p.status != Going)
    ensures RecordsLoaded(BuildsOf(es), p.reader, p.status, LoadEach(s0, r, LoadBuild))
  {
    LoadEachDone(s0, r, LoadBuild, i, p);
    BuildsOfIs(es, cur);
  }

  /** How far load's build loop has got: the first i records are loaded
      (p), the others keep their values (s0), and cur holds them all. */
  ghost predicate BuildsProgress(es: seq<Entity>, s0: seq<BuildRec>, r: Reader, i: nat, p: Phase<BuildRec>, cur: seq<BuildRec>)
    reads es
  {
    && i <= |es| == |cur| == |s0|
    && p == LoadEach(s0[..i], r, LoadBuild) && cur == p.recs + s0[i..]
    && forall j :: 0 <= j < |es| ==> BuildOf(es[j]) == cur[j]
  }

  /** One iteration of load's build loop. */
  method LoadBuildNext(es: seq<Entity>, ghost s0: seq<BuildRec>, ghost r: Reader, i: nat, ghost p: Phase<BuildRec>, ghost cur: seq<BuildRec>, r0: Reader)
      returns (r': Reader, status: Status, ghost p': Phase<BuildRec>, ghost cur': seq<BuildRec>)
    requires NoDup(es) && BuildsProgress(es, s0, r, i, p, cur) && i < |es| && p.reader == r0 && p.status == Going
    modifies es
    ensures BuildsProgress(es, s0, r, i + 1, p', cur') && p'.reader == r' && p'.status == status
  {
    ghost var x := LoadBuild(s0[i], r0);
    assert cur[i] == s0[i];
    r', status := LoadBuildInto(es[i], r0);
    forall j | 0 <= j < |es| && j != i ensures BuildOf(es[j]) == cur[j] {
      assert es[j] != es[i];
    }
    cur' := cur[i := x.rec];
    LoadEachNext(s0, r, LoadBuild, i, p, x);
    ReplaceNext(p.recs, s0, i, x.rec);
    p' := Phase(p.recs + [x.rec], x.reader, x.status);
  }





  /** load's mob loop, over the mobs es, from r. */
  method LoadMobs(es: seq<Entity>, r: Reader) returns (r': Reader, status: Status)
    requires NoDup(es)
    modifies es
    ensures RecordsLoaded(MobsOf(es), r', status, LoadEach(old(MobsOf(es)), r, LoadMob))
  {
    ghost var s0 := MobsOf(es);
    ghost var p := LoadEach(s0[..0], r, LoadMob);
    ghost var cur := s0;
    MobsStart(es, s0, r, p);
    r', status := r, Going;
    var i := 0;
    while i < |es| && status == Going
      invariant MobsProgress(es, s0, r, i, p, cur) && p.reader == r' && p.status == status
    {
      r', status, p, cur := LoadMobNext(es, s0, r, i, p, cur, r');
      i := i + 1;
    }
    MobsFinished(es, s0, r, i, p, cur);
  }

  /** Before the loop, nothing is loaded and every record keeps its value. */
  lemma MobsStart(es: seq<Entity>, s0: seq<MobRec>, r: Reader, p: Phase<MobRec>)
    requires s0 == MobsOf(es) && p == LoadEach(s0[..0], r, LoadMob)
    ensures MobsProgress(es, s0, r, 0, p, s0) && p.reader == r && p.status == Going
  {
  }

  /** When the loop ends, the records are those of the whole phase. */
  lemma MobsFinished(es: seq<Entity>, s0: seq<MobRec>, r: Reader, i: nat, p: Phase<MobRec>, cur: seq<MobRec>)
    requires MobsProgress(es, s0, r, i, p, cur) && (i == |es| || p.status != Going)
    ensures RecordsLoaded(MobsOf(es), p.reader, p.status, LoadEach(s0, r, LoadMob))
  {
    LoadEachDone(s0, r, LoadMob, i, p);
    MobsOfIs(es, cur);
  }

  /** How far load's mob loop has got: the first i records are loaded
      (p), the others keep their values (s0), and cur holds them all. */
  ghost predicate MobsProgress(es: seq<Entity>, s0: seq<MobRec>, r: Reader, i: nat, p: Phase<MobRec>, cur: seq<MobRec>)
    reads es
  {
    && i <= |es| == |cur| == |s0|
    && p == LoadEach(s0[..i], r, LoadMob) && cur == p.recs + s0[i..]
    && forall j :: 0 <= j < |es| ==> MobOf(es[j]) == cur[j]
  }

  /** One iteration of load's mob loop. */
  method LoadMobNext(es: seq<Entity>, ghost s0: seq<MobRec>, ghost r: Reader, i: nat, ghost p: Phase<MobRec>, ghost cur: seq<MobRec>, r0: Reader)
      returns (r': Reader, status: Status, ghost p': Phase<MobRec>, ghost cur': seq<MobRec>)
    requires NoDup(es) && MobsProgress(es, s0, r, i, p, cur) && i < |es| && p.reader == r0 && p.status == Going
    modifies es
    ensures MobsProgress(es, s0, r, i + 1, p', cur') && p'.reader == r' && p'.status == status
  {
    ghost var x := LoadMob(s0[i], r0);
    assert cur[i] == s0[i];
    r', status := LoadMobInto(es[i], r0);
    forall j | 0 <= j < |es| && j != i ensures MobOf(es[j]) == cur[j] {
      assert es[j] != es[i];
    }
    cur' := cur[i := x.rec];
    LoadEachNext(s0, r, LoadMob, i, p, x);
    ReplaceNext(p.recs, s0, i, x.rec);
    p' := Phase(p.recs + [x.rec], x.reader, x.status);
  }





  lemma NpcsOfIs(es: seq<Entity>, rs: seq<NpcRec>)
    requires |es| == |rs| && forall j :: 0 <= j < |es| ==> NpcOf(es[j]) == rs[j]
    ensures NpcsOf(es) == rs
  {
  }

  lemma BuildsOfIs(es: seq<Entity>, rs: seq<BuildRec>)
    requires |es| == |rs| && forall j :: 0 <= j < |es| ==> BuildOf(es[j]) == rs[j]
    ensures BuildsOf(es) == rs
  {
  }

  lemma MobsOfIs(es: seq<Entity>, rs: seq<MobRec>)
    requires |es| == |rs| && forall j :: 0 <= j < |es| ==> MobOf(es[j]) == rs[j]
    ensures MobsOf(es) == rs
  {
  }

  /** The records, stream and status a loop leaves are those of phase p. */
  ghost predicate RecordsLoaded<R>(recs: seq<R>, r: Reader, status: Status, p: Phase<R>) {
    recs == p.recs && r == p.reader && status == p.status
  }

  /** Replacing the first not yet loaded record by its loaded value. */
  lemma ReplaceNext<R>(done: seq<R>, rs: seq<R>, i: nat, x: R)
    requires |done| == i < |rs|
    ensures (done + rs[i..])[i := x] == done + [x] + rs[i + 1..]
  {
    var a, b := (done + rs[i..])[i := x], done + [x] + rs[i + 1..];
    assert |a| == |b|;
    forall k | 0 <= k < |a| ensures a[k] == b[k] {
      if k > i {
        assert a[k] == rs[k];
      }
    }
  }

  /** One more iteration of a loop that has not stopped. */
  lemma LoadEachNext<R>(rs: seq<R>, r: Reader, step: (R, Reader) -> RecordRead<R>, i: nat, p: Phase<R>, x: RecordRead<R>)
    requires i < |rs| && p == LoadEach(rs[..i], r, step) && p.status == Going
    requires x == step(rs[i], p.reader)
    ensures LoadEach(rs[..i + 1], r, step) == Phase(p.recs + [x.rec], x.reader, x.status)
  {
    assert rs[..i + 1][..i] == rs[..i];
  }

  /** A loop left after i records, because they ran out or a step
      stopped, has the result of the whole loop. */
  lemma LoadEachDone<R>(rs: seq<R>, r: Reader, step: (R, Reader) -> RecordRead<R>, i: nat, p: Phase<R>)
    requires i <= |rs| && p == LoadEach(rs[..i], r, step)
    requires i == |rs| || p.status != Going
    ensures LoadEach(rs, r, step) == Phase(p.recs + rs[i..], p.reader, p.status)
  {
    if i < |rs| {
      LoadEachStopped(rs, r, step, i);
    } else {
      assert rs[..i] == rs;
      assert p.recs + rs[i..] == p.recs;
    }
  }

  // ---------------------------------------------------------- round trip

  /** What load after save gives back: positions truncated to int, and the
      npc's AI functions as the dialog index makes them. */
  function RestoredNpc(n: NpcRec): NpcRec {
    n.(x := Trunc(n.x) as real, y := Trunc(n.y) as real,
       aiFuncs := if n.dialogIndex != NoDialog then n.aiFuncs + 1 else 0)
  }

  function RestoredBuild(b: BuildRec): BuildRec {
    BuildRec(Trunc(b.x) as real, Trunc(b.y) as real)
  }

  function RestoredMob(m: MobRec): MobRec {
    m.(x := Trunc(m.x) as real, y := Trunc(m.y) as real)
  }

  function RestoredNpcs(ns: seq<NpcRec>): (r: seq<NpcRec>)
    ensures |r| == |ns| && forall i :: 0 <= i < |ns| ==> r[i] == RestoredNpc(ns[i])
  {
    if |ns| == 0 then [] else RestoredNpcs(ns[..|ns| - 1]) + [RestoredNpc(ns[|ns| - 1])]
  }

  function RestoredBuilds(bs: seq<BuildRec>): (r: seq<BuildRec>)
    ensures |r| == |bs| && forall i :: 0 <= i < |bs| ==> r[i] == RestoredBuild(bs[i])
  {
    if |bs| == 0 then [] else RestoredBuilds(bs[..|bs| - 1]) + [RestoredBuild(bs[|bs| - 1])]
  }

  function RestoredMobs(ms: seq<MobRec>): (r: seq<MobRec>)
    ensures |r| == |ms| && forall i :: 0 <= i < |ms| ==> r[i] == RestoredMob(ms[i])
  {
    if |ms| == 0 then [] else RestoredMobs(ms[..|ms| - 1]) + [RestoredMob(ms[|ms| - 1])]
  }

  function Restored(s: Saved): Saved {
    Saved(RestoredNpcs(s.npcs), RestoredBuilds(s.builds), RestoredMobs(s.mobs))
  }

  /** getline-then-stoi reads back the first value save wrote, leaving the
      stream at the next line. */
  lemma ReadSaved(v: int, more: seq<int>, tail: string, line: string)
    requires InI32(v)
    ensures ReadInt(Reader(Text([v] + more) + tail, false, line))
            == Input(Reader(Text(more) + tail, false, ToDecimal(v)), Got(v))
  {
    var l := ToDecimal(v);
    TextFront(v, more, tail);
    GetLineOf(l, Text(more) + tail, line);
    ParseToDecimal(v);
    assert l != Sentinel by {
      if l[0] != '-' { assert IsDigit(l[0]); }
    }
  }

  /** The file from the line of v on. */
  lemma TextFront(v: int, more: seq<int>, tail: string)
    ensures Text([v] + more) + tail == ToDecimal(v) + "\n" + (Text(more) + tail)
  {
    assert ([v] + more)[1..] == more;
    Regroup(ToDecimal(v) + "\n", Text(more), tail);
  }

  /** getline on a line l that a newline ends. */
  lemma GetLineOf(l: string, rest: string, line: string)
    requires '\n' !in l
    ensures GetLine(Reader(l + "\n" + rest, false, line)) == Reader(rest, false, l)
  {
    var text := l + "\n" + rest;
    NewlineAtLine(l, rest);
    assert text[..|l|] == l;
    assert text[|l| + 1..] == rest;
  }


  /** One npc's lines read back: the record restored, the stream at the
      lines after them. */
  lemma NpcRoundTrip(n: NpcRec, more: seq<int>, tail: string, line: string)
    requires forall v :: v in NpcFields(n) ==> InI32(v)
    ensures var st := LoadNpc(n, Reader(Text(NpcFields(n) + more) + tail, false, line));
            && st.rec == RestoredNpc(n) && st.status == Going
            && st.reader == Reader(Text(more) + tail, false, ToDecimal(Trunc(n.y)))
  {
    var f := NpcFields(n);
    assert f + more == [f[0]] + ([f[1]] + ([f[2]] + more));
    ReadSaved(f[0], [f[1]] + ([f[2]] + more), tail, line);
    ReadSaved(f[1], [f[2]] + more, tail, ToDecimal(f[0]));
    ReadSaved(f[2], more, tail, ToDecimal(f[1]));
  }

  lemma BuildRoundTrip(b: BuildRec, more: seq<int>, tail: string, line: string)
    requires forall v :: v in BuildFields(b) ==> InI32(v)
    ensures var st := LoadBuild(b, Reader(Text(BuildFields(b) + more) + tail, false, line));
            && st.rec == RestoredBuild(b) && st.status == Going
            && st.reader == Reader(Text(more) + tail, false, ToDecimal(Trunc(b.y)))
  {
    var f := BuildFields(b);
    assert f + more == [f[0]] + ([f[1]] + more);
    ReadSaved(f[0], [f[1]] + more, tail, line);
    ReadSaved(f[1], more, tail, ToDecimal(f[0]));
  }

  lemma MobRoundTrip(m: MobRec, more: seq<int>, tail: string, line: string)
    requires forall v :: v in MobFields(m) ==> InI32(v)
    ensures var st := LoadMob(m, Reader(Text(MobFields(m) + more) + tail, false, line));
            && st.rec == RestoredMob(m) && st.status == Going
            && st.reader == Reader(Text(more) + tail, false, ToDecimal(if m.alive then 1 else 0))
  {
    var f := MobFields(m);
    assert f + more == [f[0]] + ([f[1]] + ([f[2]] + more));
    ReadSaved(f[0], [f[1]] + ([f[2]] + more), tail, line);
    ReadSaved(f[1], [f[2]] + more, tail, ToDecimal(f[0]));
    ReadSaved(f[2], more, tail, ToDecimal(f[1]));
  }

  /** The npc loop over the lines save wrote for the same npcs restores
      every npc and leaves the stream at the lines after theirs. */
  lemma {:induction false} NpcsRoundTrip(ns: seq<NpcRec>, more: seq<int>, tail: string, line: string)
    requires forall v :: v in Flat(ns, NpcFields) ==> InI32(v)
    ensures var p := LoadEach(ns, Reader(Text(Flat(ns, NpcFields) + more) + tail, false, line), LoadNpc);
            && p.recs == RestoredNpcs(ns)
            && p.status == Going && p.reader.rest == Text(more) + tail && !p.reader.eof
  {
    if |ns| > 0 {
      var pre, last := ns[..|ns| - 1], ns[|ns| - 1];
      assert Flat(pre, NpcFields) + (NpcFields(last) + more) == Flat(ns, NpcFields) + more;
      NpcsRoundTrip(pre, NpcFields(last) + more, tail, line);
      var p := LoadEach(pre, Reader(Text(Flat(ns, NpcFields) + more) + tail, false, line), LoadNpc);
      NpcRoundTrip(last, more, tail, p.reader.line);
    } else {
      assert Flat(ns, NpcFields) + more == more;
    }
  }

  lemma {:induction false} BuildsRoundTrip(bs: seq<BuildRec>, more: seq<int>, tail: string, line: string)
    requires forall v :: v in Flat(bs, BuildFields) ==> InI32(v)
    ensures var p := LoadEach(bs, Reader(Text(Flat(bs, BuildFields) + more) + tail, false, line), LoadBuild);
            && p.recs == RestoredBuilds(bs)
            && p.status == Going && p.reader.rest == Text(more) + tail && !p.reader.eof
  {
    if |bs| > 0 {
      var pre, last := bs[..|bs| - 1], bs[|bs| - 1];
      assert Flat(pre, BuildFields) + (BuildFields(last) + more) == Flat(bs, BuildFields) + more;
      BuildsRoundTrip(pre, BuildFields(last) + more, tail, line);
      var p := LoadEach(pre, Reader(Text(Flat(bs, BuildFields) + more) + tail, false, line), LoadBuild);
      BuildRoundTrip(last, more, tail, p.reader.line);
    } else {
      assert Flat(bs, BuildFields) + more == more;
    }
  }

  lemma {:induction false} MobsRoundTrip(ms: seq<MobRec>, more: seq<int>, tail: string, line: string)
    requires forall v :: v in Flat(ms, MobFields) ==> InI32(v)
    ensures var p := LoadEach(ms, Reader(Text(Flat(ms, MobFields) + more) + tail, false, line), LoadMob);
            && p.recs == RestoredMobs(ms)
            && p.status == Going && p.reader.rest == Text(more) + tail && !p.reader.eof
  {
    if |ms| > 0 {
      var pre, last := ms[..|ms| - 1], ms[|ms| - 1];
      assert Flat(pre, MobFields) + (MobFields(last) + more) == Flat(ms, MobFields) + more;
      MobsRoundTrip(pre, MobFields(last) + more, tail, line);
      var p := LoadEach(pre, Reader(Text(Flat(ms, MobFields) + more) + tail, false, line), LoadMob);
      MobRoundTrip(last, more, tail, p.reader.line);
    } else {
      assert Flat(ms, MobFields) + more == more;
    }
  }

  /** load after save, on the same entities, gives every npc, structure
      and mob back with its position truncated to int, its dialog index
      and its alive flag; it reads every line before the sentinel. This
      needs every saved value to fit in an int, as the casts of save do. */
  lemma SaveLoadRoundTrip(s: Saved)
    requires forall v :: v in SaveValues(s) ==> InI32(v)
    ensures LoadAll(s, SaveText(s)) == Loaded(Restored(s), Going)
  {
    var fn, fb, fm := Flat(s.npcs, NpcFields), Flat(s.builds, BuildFields), Flat(s.mobs, MobFields);
    assert SaveValues(s) == fn + (fb + fm);
    NpcsRoundTrip(s.npcs, fb + fm, Sentinel, "");
    var p1 := LoadEach(s.npcs, Open(SaveText(s)), LoadNpc);
    BuildsRoundTrip(s.builds, fm, Sentinel, p1.reader.line);
    var p2 := LoadEach(s.builds, p1.reader, LoadBuild);
    assert fm == fm + [];
    MobsRoundTrip(s.mobs, [], Sentinel, p2.reader.line);
  }

  /** A file that holds only the npc lines of a save, as written before the
      world had any structure: load restores the npcs, stops at the
      sentinel, and leaves every structure and mob as it was. */
  lemma ShortFileKeepsRest(s: Saved)
    requires forall v :: v in Flat(s.npcs, NpcFields) ==> InI32(v)
    requires 0 < |s.builds|
    ensures var text := Text(Flat(s.npcs, NpcFields)) + Sentinel;
            LoadAll(s, text) == Loaded(s.(npcs := Restored(s).npcs), Stopped)
  {
    var fn := Flat(s.npcs, NpcFields);
    var text := Text(fn) + Sentinel;
    var p1 := LoadEach(s.npcs, Open(text), LoadNpc);
    assert p1.recs == RestoredNpcs(s.npcs) && p1.status == Going && p1.reader.rest == Sentinel && !p1.reader.eof by {
      assert fn + [] == fn;
      NpcsRoundTrip(s.npcs, [], Sentinel, "");
    }
    BuildsStopAtSentinel(s.builds, p1.reader);
    StoppedInBuilds(s, text, p1, LoadEach(s.builds, p1.reader, LoadBuild));
  }

  /** A structure loop that meets the sentinel at once leaves every
      structure as it was and stops. */
  lemma BuildsStopAtSentinel(bs: seq<BuildRec>, r: Reader)
    requires 0 < |bs| && r.rest == Sentinel && !r.eof
    ensures LoadEach(bs, r, LoadBuild).recs == bs && LoadEach(bs, r, LoadBuild).status == Stopped
  {
    SentinelStops(bs[0], r);
    StopAtFirst(bs, r, LoadBuild, Reader("", true, Sentinel));
  }

  /** A loop whose first step stops leaves every record as it was. */
  lemma StopAtFirst<R>(rs: seq<R>, r: Reader, step: (R, Reader) -> RecordRead<R>, r1: Reader)
    requires 0 < |rs| && step(rs[0], r) == RecordRead(rs[0], r1, Stopped)
    ensures LoadEach(rs, r, step).recs == rs && LoadEach(rs, r, step).status == Stopped
  {
    assert LoadEach(rs[..1], r, step) == Phase([rs[0]], r1, Stopped) by {
      assert rs[..1][..0] == [];
    }
    LoadEachStopped(rs, r, step, 1);
    assert [rs[0]] + rs[1..] == rs;
  }

  /** load when the npc loop gets through and the structure loop stops. */
  lemma StoppedInBuilds(s: Saved, text: string, p1: Phase<NpcRec>, p2: Phase<BuildRec>)
    requires p1 == LoadEach(s.npcs, Open(text), LoadNpc) && p1.status == Going
    requires p2 == LoadEach(s.builds, p1.reader, LoadBuild) && p2.status == Stopped
    ensures LoadAll(s, text) == Loaded(s.(npcs := p1.recs, builds := p2.recs), Stopped)
  {
  }

  /** A structure's first getline meeting the sentinel line: load stops
      before changing it. */
  lemma SentinelStops(b: BuildRec, r: Reader)
    requires r.rest == Sentinel && !r.eof
    ensures LoadBuild(b, r) == RecordRead(b, Reader("", true, Sentinel), Stopped)
  {
    assert NewlineAt(Sentinel) == |Sentinel|;
  }
}
