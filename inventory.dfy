/// The slot inventory of src/inventory.cpp, declared in include/inventory.h:
/// a fixed array of (count, id) slots, filled in order by addItem and drawn
/// down by takeItem.

module Inventories {
  import opened Common

  /** An unsigned char. */
  type Byte = x: int | 0 <= x < 256

  /** The ITEM_ID enumeration. A zeroed slot holds id 0, which names no
      item. */
  const TestItem: int := 1
  const PlayerBag: int := 2
  const Flashlight: int := 3
  const SwordWood: int := 4
  const DebugItem: int := 69

  /** item_t: how many of an item a slot holds, and which item. */
  datatype Slot = Slot(count: int, id: int)

  /** The count field of each of the ITEM_COUNT entries of the static item
      table: the Item constructor sets it to 0 and nothing changes it. */
  const TableCounts: seq<int> := [0, 0, 0, 0, 0]

  /** Index of the first slot holding id, if any. */
  function FirstSlot(slots: seq<Slot>, id: int): (k: Option<nat>)
    ensures k.Some? ==> k.value < |slots| && slots[k.value].id == id
    ensures k.Some? ==> forall j :: 0 <= j < k.value ==> slots[j].id != id
    ensures k.None? <==> forall j :: 0 <= j < |slots| ==> slots[j].id != id
  {
    if |slots| == 0 then None
    else if slots[0].id == id then Some(0)
    else match FirstSlot(slots[1..], id)
      case None => None
      case Some(k) => Some(k + 1)
  }

  /** The slots after takeItem(id, count): the first slot holding id gives
      up count (going negative if need be); with no such slot, nothing
      changes. */
  function Taken(slots: seq<Slot>, id: int, count: Byte): (r: seq<Slot>)
    ensures |r| == |slots|
  {
    match FirstSlot(slots, id)
    case None => slots
    case Some(k) => slots[k := slots[k].(count := slots[k].count - count)]
  }

  /** How many of id all the slots hold together. */
  function Total(slots: seq<Slot>, id: int): int {
    if |slots| == 0 then 0
    else Total(slots[..|slots| - 1], id) + (if slots[|slots| - 1].id == id then slots[|slots| - 1].count else 0)
  }

  class Inventory {
    const size: nat
    const inv: array<Slot>
    var os: nat
    var sel: nat

    /** addItem has written slots 0..os-1, and os is still within the
        array. */
    predicate Valid()
      reads this
    {
      inv.Length == size && os <= size
    }

    /** Inventory(s): s zeroed slots, selection 0, nothing added. */
    constructor (s: nat)
      ensures Valid() && size == s && os == 0 && sel == 0
      ensures fresh(inv) && inv[..] == seq(s, _ => Slot(0, 0))
    {
      size := s;
      inv := new Slot[s](_ => Slot(0, 0));
      os, sel := 0, 0;
    }

    /** setSelection changes the selection and nothing else. */
    method SetSelection(s: nat)
      modifies this`sel
      ensures sel == s
    {
      sel := s;
    }

    /** addItem: writes id and count into slot os and moves os on by one;
        always returns 0. There is no capacity check, so a caller must not
        add past the last slot. */
    method AddItem(id: int, count: Byte) returns (r: int)
      requires Valid() && os < size
      modifies this`os, inv
      ensures Valid() && r == 0 && os == old(os) + 1
      ensures inv[..] == old(inv[..])[old(os) := Slot(count, id)]
    {
      inv[os] := Slot(count, id);
      os := os + 1;
      return 0;
    }

    /** takeItem: scans the slots for the first holding id and takes count
        from it, returning 0 (the item table's count is never negative);
        returns -1 and changes nothing when no slot holds id. */
    method TakeItem(id: int, count: Byte) returns (r: int)
      requires Valid()
      modifies inv
      ensures inv[..] == Taken(old(inv[..]), id, count)
      ensures r == if FirstSlot(old(inv[..]), id).Some? then 0 else -1
    {
      var i := 0;
      while i < size
        invariant i <= size && inv[..] == old(inv[..])
        invariant forall j :: 0 <= j < i ==> inv[j].id != id
      {
        if inv[i].id == id {
          assert FirstSlot(inv[..], id) == Some(i) by { FirstSlotIs(inv[..], id, i); }
          inv[i] := inv[i].(count := inv[i].count - count);
          var c := if i < |TableCounts| then TableCounts[i] else 0;
          if c < 0 {
            return c * -1;
          }
          return 0;
        }
        i := i + 1;
      }
      return -1;
    }
  }

  /** The first slot holding id is the one before which no slot holds it. */
  lemma FirstSlotIs(slots: seq<Slot>, id: int, k: nat)
    requires k < |slots| && slots[k].id == id
    requires forall j :: 0 <= j < k ==> slots[j].id != id
    ensures FirstSlot(slots, id) == Some(k)
  {
    var f := FirstSlot(slots, id);
    assert f.Some?;
    assert !(f.value < k) && !(k < f.value);
  }

  /** Overwriting one slot changes the total of an id by what that slot
      held of it and what it holds now. */
  lemma {:induction false} TotalUpdate(slots: seq<Slot>, k: nat, x: Slot, id: int)
    requires k < |slots|
    ensures Total(slots[k := x], id)
            == Total(slots, id) - (if slots[k].id == id then slots[k].count else 0)
                                + (if x.id == id then x.count else 0)
  {
    var n := |slots| - 1;
    var s' := slots[k := x];
    assert s'[..n] == if k == n then slots[..n] else slots[..n][k := x];
    if k < n {
      TotalUpdate(slots[..n], k, x, id);
    }
  }

  /** takeItem lowers the total held of id by exactly count when some slot
      holds id, and leaves the total of every other id as it was. */
  lemma TakeTotal(slots: seq<Slot>, id: int, count: Byte, other: int)
    requires other != id
    ensures Total(Taken(slots, id, count), id)
            == Total(slots, id) - (if FirstSlot(slots, id).Some? then count else 0)
    ensures Total(Taken(slots, id, count), other) == Total(slots, other)
  {
    match FirstSlot(slots, id)
    case None =>
    case Some(k) =>
      TotalUpdate(slots, k, slots[k].(count := slots[k].count - count), id);
      TotalUpdate(slots, k, slots[k].(count := slots[k].count - count), other);
  }

  /** Adding count of an item that no earlier slot holds into slot os and
      then taking count of it leaves that slot at zero and every other slot
      as before. */
  lemma TakeAfterAdd(slots: seq<Slot>, os: nat, id: int, count: Byte)
    requires os < |slots|
    requires forall j :: 0 <= j < os ==> slots[j].id != id
    ensures Taken(slots[os := Slot(count, id)], id, count) == slots[os := Slot(0, id)]
  {
    FirstSlotIs(slots[os := Slot(count, id)], id, os);
  }
}
