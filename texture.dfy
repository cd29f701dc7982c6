/// The two texture caches of include/texture.hpp: SpriteLoader, which gives
/// each image path an id (the least id not yet in use) and loads it once,
/// and TextureIterator, a cursor over a list of loaded textures.
/// Texture::loadTexture is the parameter `load` (or the texture name `tex`
/// it returned), and glBindTexture is recorded as the field `bound`.

module Textures {
  import opened Common

  // ---------------------------------------------------------------------
  // SpriteLoader

  /** A set of ids that holds every id below n has at least n members. */
  lemma {:induction false} CountBelow(keys: set<nat>, n: nat)
    requires forall k :: 0 <= k < n ==> k in keys
    ensures n <= |keys|
  {
    if n > 0 {
      CountBelow(keys - {n - 1}, n - 1);
    }
  }

  /** The least id, from i on, that is not a key; every id below i is. */
  function LeastFreeFrom(keys: set<nat>, i: nat): (id: nat)
    requires forall k :: 0 <= k < i ==> k in keys
    ensures i <= id && id !in keys
    ensures forall k :: 0 <= k < id ==> k in keys
    decreases |keys| - i
  {
    if i !in keys then i
    else
      CountBelow(keys, i + 1);
      LeastFreeFrom(keys, i + 1)
  }

  /** The least id that is not a key. */
  function LeastFree(keys: set<nat>): (id: nat)
    ensures id !in keys && forall k :: 0 <= k < id ==> k in keys
  {
    LeastFreeFrom(keys, 0)
  }

  /** An id that is free while all those below it are taken is the least
      free one. */
  lemma LeastFreeUnique(keys: set<nat>, id: nat)
    requires id !in keys && forall k :: 0 <= k < id ==> k in keys
    ensures id == LeastFree(keys)
  {
    var f := LeastFree(keys);
    assert !(f < id) && !(id < f);
  }

  /** The two maps of a SpriteLoader: id to texture, and path to id. */
  datatype Sprites = Sprites(sprites: map<nat, nat>, locs: map<string, nat>)

  /** Every path's id has a texture, and no two paths share an id. */
  predicate Consistent(st: Sprites) {
    && (forall p :: p in st.locs ==> st.locs[p] in st.sprites)
    && (forall p, q :: p in st.locs && q in st.locs && p != q ==> st.locs[p] != st.locs[q])
  }

  /** loadSprite(s) on the maps, with tex the texture loadTexture(s) gives:
      a path seen before keeps its id; a new path gets the least free id,
      and both maps record it. */
  function Load(st: Sprites, s: string, tex: nat): (r: (Sprites, nat))
  {
    if s in st.locs then (st, st.locs[s])
    else
      var id := LeastFree(st.sprites.Keys);
      (Sprites(st.sprites[id := tex], st.locs[s := id]), id)
  }

  /** A path seen before: the same id back, and nothing added. */
  lemma LoadSeen(st: Sprites, s: string, tex: nat)
    requires s in st.locs
    ensures Load(st, s, tex) == (st, st.locs[s])
  {
  }

  /** A new path: an id no path had and no texture used, the least such,
      recorded in both maps with nothing else changed. */
  lemma LoadNew(st: Sprites, s: string, tex: nat)
    requires Consistent(st) && s !in st.locs
    ensures var (st', id) := Load(st, s, tex);
            && id !in st.sprites && (forall k :: 0 <= k < id ==> k in st.sprites)
            && (forall p :: p in st.locs ==> st.locs[p] != id)
            && st'.sprites == st.sprites[id := tex] && st'.locs == st.locs[s := id]
  {
  }

  /** loadSprite keeps the maps consistent, and the id it returns has a
      texture. */
  lemma LoadConsistent(st: Sprites, s: string, tex: nat)
    requires Consistent(st)
    ensures Consistent(Load(st, s, tex).0)
    ensures Load(st, s, tex).1 in Load(st, s, tex).0.sprites
    ensures Load(st, s, tex).0.locs[s] == Load(st, s, tex).1
  {
    if s !in st.locs {
      LoadNew(st, s, tex);
    }
  }

  /** Loading a path a second time gives the same id and changes nothing. */
  lemma LoadTwice(st: Sprites, s: string, tex: nat, tex2: nat)
    ensures var (st', id) := Load(st, s, tex);
            Load(st', s, tex2) == (st', id)
  {
  }

  class SpriteLoader {
    var sprites: map<nat, nat>
    var spritesLoc: map<string, nat>
    var freeID: nat

    constructor ()
      ensures sprites == map[] && spritesLoc == map[] && freeID == 0
    {
      sprites, spritesLoc, freeID := map[], map[], 0;
    }

    function State(): Sprites
      reads this
    {
      Sprites(sprites, spritesLoc)
    }

    /** increaseID: counts up from 0 to the first id without a texture, and
        keeps it as freeID. */
    method IncreaseID() returns (id: nat)
      modifies this`freeID
      ensures id == freeID == LeastFree(sprites.Keys)
    {
      var i := 0;
      while i in sprites
        invariant forall k :: 0 <= k < i ==> k in sprites
        decreases |sprites.Keys| - i
      {
        CountBelow(sprites.Keys, i + 1);
        i := i + 1;
      }
      LeastFreeUnique(sprites.Keys, i);
      freeID := i;
      return freeID;
    }

    /** loadSprite: the stored id of a path seen before; otherwise a new
        id, the texture loaded for it and the path recorded. */
    method LoadSprite(s: string, tex: nat) returns (id: nat)
      modifies this
      ensures (State(), id) == Load(old(State()), s, tex)
    {
      if s in spritesLoc {
        return spritesLoc[s];
      }
      var next := IncreaseID();
      sprites := sprites[next := tex];
      spritesLoc := spritesLoc[s := freeID];
      return freeID;
    }

    /** getSprite: the texture of an id; None is the std::out_of_range that
        unordered_map::at throws for an id without one. */
    method GetSprite(id: nat) returns (r: Option<nat>)
      ensures r.Some? <==> id in sprites
      ensures r.Some? ==> r.value == sprites[id]
    {
      if id in sprites {
        return Some(sprites[id]);
      }
      return None;
    }
  }

  // ---------------------------------------------------------------------
  // TextureIterator

  /** Where operator++ leaves the cursor in a list of n textures: one on,
      but never past the last. */
  function Next(pos: int, n: nat): (r: int)
    requires 0 < n && 0 <= pos < n
    ensures 0 <= r < n
    ensures r == pos + 1 || (r == pos == n - 1)
  {
    if pos + 1 < n then pos + 1 else n - 1
  }

  /** Where operator-- leaves the cursor: one back, but never before the
      first. */
  function Prev(pos: int, n: nat): (r: int)
    requires 0 < n && 0 <= pos < n
    ensures 0 <= r < n
    ensures r == pos - 1 || (r == pos == 0)
  {
    if pos - 1 >= 0 then pos - 1 else 0
  }

  /** Stepping back undoes stepping on, except at the last texture; and
      stepping on undoes stepping back, except at the first. */
  lemma StepsUndo(pos: int, n: nat)
    requires 0 < n && 0 <= pos < n
    ensures pos + 1 < n ==> Prev(Next(pos, n), n) == pos
    ensures 0 < pos ==> Next(Prev(pos, n), n) == pos
  {
  }

  /** operator() and getTexturePath as written: they throw only for
      index < 0 or index > size, so index == size gets through. */
  predicate AcceptsAsWritten(index: int, n: nat) {
    !(index < 0 || index > n)
  }

  /** The indices of the list. */
  predicate InRange(index: int, n: nat) {
    0 <= index < n
  }

  /** The as-written test lets through exactly one index that is not in the
      list: size itself, one past the end, which operator() then
      dereferences and getTexturePath reads. */
  lemma AcceptsOnePastEnd(n: nat)
    ensures AcceptsAsWritten(n, n) && !InRange(n, n)
    ensures forall i :: AcceptsAsWritten(i, n) <==> InRange(i, n) || i == n
  {
  }

  class TextureIterator {
    var textures: seq<(nat, string)>
    var position: int
    var bound: Option<nat>

    /** The cursor is on a texture, or at the start of an empty list. */
    predicate Valid()
      reads this
    {
      InRange(position, |textures|) || (|textures| == 0 && position == 0)
    }

    /** TextureIterator(l): loads each path of l in order and puts the
        cursor on the first. */
    constructor (l: seq<string>, load: string -> nat)
      ensures Valid() && position == 0 && bound == None
      ensures |textures| == |l| && forall i :: 0 <= i < |l| ==> textures[i] == (load(l[i]), l[i])
    {
      var t: seq<(nat, string)> := [];
      var i := 0;
      while i < |l|
        invariant i <= |l| && |t| == i
        invariant forall j :: 0 <= j < i ==> t[j] == (load(l[j]), l[j])
      {
        t := t + [(load(l[i]), l[i])];
        i := i + 1;
      }
      textures, position, bound := t, 0, None;
    }

    /** operator++: one texture on, binding it, or stays on the last. */
    method Inc()
      requires Valid() && 0 < |textures|
      modifies this`position, this`bound
      ensures Valid() && position == Next(old(position), |textures|)
      ensures bound == if old(position) + 1 < |textures| then Some(textures[position].0) else old(bound)
    {
      position := position + 1;
      if position < |textures| {
        bound := Some(textures[position].0);
      } else {
        position := |textures| - 1;
      }
    }

    /** operator--: one texture back, binding it, or stays on the first. */
    method Dec()
      requires Valid() && 0 < |textures|
      modifies this`position, this`bound
      ensures Valid() && position == Prev(old(position), |textures|)
      ensures bound == if old(position) > 0 then Some(textures[position].0) else old(bound)
    {
      position := position - 1;
      if position >= 0 {
        bound := Some(textures[position].0);
      } else {
        position := 0;
      }
    }

    /** operator()(index), with the range test corrected: moves the cursor
        to index and binds that texture; false is the invalid_argument it
        throws otherwise, with nothing changed. */
    method Select(index: int) returns (ok: bool)
      requires Valid()
      modifies this`position, this`bound
      ensures Valid()
      ensures ok <==> InRange(index, |textures|)
      ensures ok ==> position == index && bound == Some(textures[index].0)
      ensures !ok ==> position == old(position) && bound == old(bound)
    {
      if !InRange(index, |textures|) {
        return false;
      }
      position := index;
      bound := Some(textures[index].0);
      return true;
    }

    /** getTexturePath(index), with the range test corrected: the path of
        the texture at index; None is the invalid_argument thrown. */
    function GetTexturePath(index: int): (r: Option<string>)
      reads this
      ensures r.Some? <==> InRange(index, |textures|)
      ensures r.Some? ==> r.value == textures[index].1
    {
      if InRange(index, |textures|) then Some(textures[index].1) else None
    }
  }
}
