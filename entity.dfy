/// The entities a world holds and the vectors it keeps them in. The entity
/// classes are declared in entities.h and defined in entities.cpp, which are
/// not part of this model: the fields below are the ones src/world.cpp reads
/// and writes, and Entity::spawn's effect is given by a Shape.

module Entities {
  import opened Common

  /** The entity's type tag (STRUCTURET, NPCT, MERCHT, MOBT, OBJECTT,
      PLAYERT). It never changes after construction. */
  datatype Kind = StructureKind | NpcKind | MerchantKind | MobKind | ObjectKind | PlayerKind

  /** A mob's subtype; MS_TRIGGER mobs are skipped by the physics step. */
  datatype MobSub = MsTrigger | MsDoor | OtherMob(code: nat)

  /** A structure's subtype; particles fall into FOUNTAIN basins. */
  datatype BuildSub = Fountain | FirePit | OtherBuild(code: nat)

  /** The size and health Entity::spawn gives a new entity. */
  datatype Shape = Shape(width: real, height: real, health: real)

  class Entity {
    const kind: Kind
    var loc: Vec2
    var vel: Vec2
    var width: real
    var height: real
    var health: real
    var alive: bool
    var ground: bool
    /** Structures: subtype, the world file its door leads to, texture. */
    var bsub: BuildSub
    var inside: string
    var texture: string
    /** Mobs: subtype and whether a hook function is attached. */
    var msub: MobSub
    var hasHey: bool
    /** NPCs: dialog index and the number of attached AI functions. */
    var dialogIndex: int
    var aiFuncs: nat
    /** Objects: the item it holds and its pick-up text. */
    var item: string
    var pickupText: string

    /** A new entity of the given kind, spawned at (x, y). */
    constructor (k: Kind, shape: Shape, x: real, y: real)
      ensures kind == k && loc == Vec2(x, y) && vel == Vec2(0.0, 0.0)
      ensures width == shape.width && height == shape.height && health == shape.health
      ensures alive && !ground
      ensures bsub == OtherBuild(0) && inside == "" && texture == ""
      ensures msub == OtherMob(0) && !hasHey
      ensures dialogIndex == 0 && aiFuncs == 0 && item == "" && pickupText == ""
    {
      kind := k;
      loc, vel := Vec2(x, y), Vec2(0.0, 0.0);
      width, height, health := shape.width, shape.height, shape.health;
      alive, ground := true, false;
      bsub, inside, texture := OtherBuild(0), "", "";
      msub, hasHey := OtherMob(0), false;
      dialogIndex, aiFuncs := 0, 0;
      item, pickupText := "", "";
    }
  }

  predicate NoDup<T(==)>(s: seq<T>) {
    forall i, j :: 0 <= i < j < |s| ==> s[i] != s[j]
  }

  /** s with its first occurrence of x removed (s itself when x is absent):
      what the find-then-erase loops of src/world.cpp leave behind. */
  function RemoveFirst<T(==)>(s: seq<T>, x: T): (r: seq<T>)
    ensures x !in s ==> r == s
    ensures x in s ==> |r| == |s| - 1
    ensures forall y :: y in r ==> y in s
  {
    if |s| == 0 then []
    else if s[0] == x then s[1..]
    else [s[0]] + RemoveFirst(s[1..], x)
  }

  /** Removing the first occurrence at index j keeps everything before and
      after it, in order. */
  lemma {:induction false} RemoveFirstAt<T>(s: seq<T>, x: T, j: nat)
    requires j < |s| && s[j] == x && x !in s[..j]
    ensures RemoveFirst(s, x) == s[..j] + s[j + 1..]
  {
    if j > 0 {
      assert s[0] != x by { assert s[..j][0] == s[0]; }
      assert x !in s[1..][..j - 1] by { assert s[1..][..j - 1] == s[..j][1..]; }
      RemoveFirstAt(s[1..], x, j - 1);
      assert s[..j] == [s[0]] + s[1..][..j - 1];
      assert s[1..][j - 1 + 1..] == s[j + 1..];
    }
  }

  lemma NoDupTail<T>(s: seq<T>)
    requires 0 < |s| && NoDup(s)
    ensures NoDup(s[1..]) && s[0] !in s[1..]
  {
    forall i, j | 0 <= i < j < |s[1..]| ensures s[1..][i] != s[1..][j] {
      assert s[1..][i] == s[i + 1] && s[1..][j] == s[j + 1];
    }
    forall k | 0 <= k < |s[1..]| ensures s[1..][k] != s[0] {
      assert s[1..][k] == s[k + 1];
    }
  }

  /** Removing x from a vector removes x (when the vector has no
      duplicates) and nothing else. */
  lemma {:induction false} RemoveFirstMembers<T>(s: seq<T>, x: T)
    requires NoDup(s)
    ensures forall y :: y in RemoveFirst(s, x) <==> y in s && y != x
  {
    if |s| > 0 {
      NoDupTail(s);
      assert forall y :: y in s <==> y == s[0] || y in s[1..] by { assert s == [s[0]] + s[1..]; }
      if s[0] != x {
        RemoveFirstMembers(s[1..], x);
        assert RemoveFirst(s, x) == [s[0]] + RemoveFirst(s[1..], x);
      }
    }
  }

  /** Removing an element keeps a vector free of duplicates. */
  lemma {:induction false} RemoveFirstNoDup<T>(s: seq<T>, x: T)
    requires NoDup(s)
    ensures NoDup(RemoveFirst(s, x))
  {
    if |s| > 0 {
      NoDupTail(s);
      if s[0] != x {
        RemoveFirstNoDup(s[1..], x);
        var t := RemoveFirst(s[1..], x);
        var r := [s[0]] + t;
        assert RemoveFirst(s, x) == r;
        forall i, j | 0 <= i < j < |r| ensures r[i] != r[j] {
          assert r[j] == t[j - 1];
          if 0 < i {
            assert r[i] == t[i - 1];
          }
        }
      }
    }
  }

  /** The find-and-erase loop: scans s for x and erases the first match;
      found tells whether there was one. */
  method EraseFirst<T(==)>(s: seq<T>, x: T) returns (r: seq<T>, found: bool)
    ensures found <==> x in s
    ensures r == RemoveFirst(s, x)
  {
    var j := 0;
    while j < |s|
      invariant 0 <= j <= |s| && x !in s[..j]
    {
      if s[j] == x {
        RemoveFirstAt(s, x, j);
        return s[..j] + s[j + 1..], true;
      }
      assert s[..j + 1] == s[..j] + [s[j]];
      j := j + 1;
    }
    assert s[..j] == s;
    return s, false;
  }
}
