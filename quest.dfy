/// The quest list of src/Quest.cpp: assigning a quest whose requirements
/// come as a delimited string, dropping a quest, finishing one against the
/// player's inventory, and asking whether a quest is held. The inventory is
/// the name-keyed one of include/inventory.hpp, which is not part of this
/// model: its hasItem is the parameter `hasItem`, and the takeItem calls
/// finish makes are returned in order.

module Quests {
  import opened Common
  import opened CText

  /** One requirement: an item name and how many of it. */
  datatype Need = Need(name: string, n: int)

  datatype Quest = Quest(title: string, desc: string, need: seq<Need>)

  /** The delimiters assign hands strtok: newline, carriage return, tab and
      comma. */
  const Delims: set<char> := {'\n', '\r', '\t', ','}

  /** The requirements read from the tokens, each count read by count:
      names and counts alternate, and a last name left without a count is
      dropped. */
  function NeedsBy(toks: seq<string>, count: string -> int): (ns: seq<Need>)
    ensures |ns| == |toks| / 2
  {
    if |toks| < 2 then [] else [Need(toks[0], count(toks[1]))] + NeedsBy(toks[2..], count)
  }

  /** The requirements assign reads: every count goes through atoi. */
  function Needs(toks: seq<string>): (ns: seq<Need>)
    ensures |ns| == |toks| / 2
  {
    NeedsBy(toks, Atoi)
  }

  /** Index of the first quest titled t, if there is one. */
  function FirstTitled(qs: seq<Quest>, t: string): (k: Option<nat>)
    ensures k.Some? ==> k.value < |qs| && qs[k.value].title == t
    ensures k.Some? ==> forall j :: 0 <= j < k.value ==> qs[j].title != t
    ensures k.None? <==> forall j :: 0 <= j < |qs| ==> qs[j].title != t
  {
    if |qs| == 0 then None
    else if qs[0].title == t then Some(0)
    else match FirstTitled(qs[1..], t)
      case None => None
      case Some(k) => Some(k + 1)
  }

  /** The inventory holds at least the count of every requirement. */
  predicate Ready(q: Quest, hasItem: string -> int) {
    forall i :: 0 <= i < |q.need| ==> hasItem(q.need[i].name) >= q.need[i].n
  }

  /** The list without its k-th quest. */
  function Without(qs: seq<Quest>, k: nat): (r: seq<Quest>)
    requires k < |qs|
    ensures |r| == |qs| - 1
  {
    qs[..k] + qs[k + 1..]
  }

  /** The requirement list assign is building after i tokens: the pairs
      read so far, then a pending entry, empty or holding a name whose count
      has not come yet. */
  ghost predicate Partial(need: seq<Need>, toks: seq<string>, i: nat, count: string -> int) {
    && i <= |toks| && 0 < |need|
    && need[..|need| - 1] == NeedsBy(toks[..i], count)
    && need[|need| - 1] == if i % 2 == 0 then Need("", 0) else Need(toks[i - 1], 0)
  }

  /** One pass of assign's strtok loop: a token after a name is its count,
      and opens a new pending entry; any other token is a name. */
  method Feed(need: seq<Need>, toks: seq<string>, i: nat, count: string -> int) returns (need': seq<Need>)
    requires Partial(need, toks, i, count) && i < |toks|
    requires forall k :: 0 <= k < |toks| ==> IsToken(toks[k], Delims)
    ensures Partial(need', toks, i + 1, count)
  {
    var back := need[|need| - 1];
    if back.name != "" {
      FeedCount(need, toks, i, count);
      need' := need[..|need| - 1] + [back.(n := count(toks[i])), Need("", 0)];
    } else {
      FeedName(need, toks, i, count);
      need' := need[..|need| - 1] + [back.(name := toks[i])];
    }
  }

  /** A count token after a name token completes one more requirement. */
  lemma NeedsGrow(toks: seq<string>, i: nat, count: string -> int)
    requires i < |toks| && i % 2 == 1
    ensures NeedsBy(toks[..i + 1], count) == NeedsBy(toks[..i], count) + [Need(toks[i - 1], count(toks[i]))]
  {
    var done := toks[..i - 1];
    assert toks[..i] == done + [toks[i - 1]];
    assert toks[..i + 1] == done + [toks[i - 1], toks[i]];
    TrailingNameDropped(done, toks[i - 1], count);
    NeedsPair(done, toks[i - 1], toks[i], count);
  }

  /** A token after a pending name is that name's count. */
  lemma FeedCount(need: seq<Need>, toks: seq<string>, i: nat, count: string -> int)
    requires Partial(need, toks, i, count) && i < |toks| && need[|need| - 1].name != ""
    ensures Partial(need[..|need| - 1] + [need[|need| - 1].(n := count(toks[i])), Need("", 0)], toks, i + 1, count)
  {
    assert i % 2 == 1;
    NeedsGrow(toks, i, count);
    var n := |need|;
    var e := Need(toks[i - 1], count(toks[i]));
    var need' := need[..n - 1] + [e, Need("", 0)];
    assert need'[..n] == need[..n - 1] + [e];
  }

  /** A token with no name pending is a name. */
  lemma FeedName(need: seq<Need>, toks: seq<string>, i: nat, count: string -> int)
    requires Partial(need, toks, i, count) && i < |toks| && need[|need| - 1].name == ""
    requires forall k :: 0 <= k < |toks| ==> IsToken(toks[k], Delims)
    ensures Partial(need[..|need| - 1] + [need[|need| - 1].(name := toks[i])], toks, i + 1, count)
  {
    assert i % 2 == 0;
    assert toks[..i + 1] == toks[..i] + [toks[i]];
    TrailingNameDropped(toks[..i], toks[i], count);
    var need' := need[..|need| - 1] + [need[|need| - 1].(name := toks[i])];
    assert need'[..|need'| - 1] == need[..|need| - 1];
  }

  /** A name and its count add one requirement. */
  lemma {:induction false} NeedsPair(toks: seq<string>, name: string, c: string, count: string -> int)
    requires |toks| % 2 == 0
    ensures NeedsBy(toks + [name, c], count) == NeedsBy(toks, count) + [Need(name, count(c))]
  {
    if |toks| == 0 {
      assert toks + [name, c] == [name, c];
    } else {
      assert (toks + [name, c])[2..] == toks[2..] + [name, c];
      NeedsPair(toks[2..], name, c, count);
    }
  }

  /** Requirement i is the name at token 2i with the count at token
      2i + 1. */
  lemma {:induction false} NeedsAt(toks: seq<string>, i: nat, count: string -> int)
    requires 2 * i + 1 < |toks|
    ensures i < |NeedsBy(toks, count)| && NeedsBy(toks, count)[i] == Need(toks[2 * i], count(toks[2 * i + 1]))
  {
    var rest := toks[2..];
    assert NeedsBy(toks, count) == [Need(toks[0], count(toks[1]))] + NeedsBy(rest, count);
    if i > 0 {
      NeedsAt(rest, i - 1, count);
      assert rest[2 * (i - 1)] == toks[2 * i];
      assert rest[2 * (i - 1) + 1] == toks[2 * i + 1];
    }
  }

  /** Once every token is read, the list without its pending entry is the
      requirements. */
  lemma PartialDone(need: seq<Need>, toks: seq<string>, count: string -> int)
    requires Partial(need, toks, |toks|, count)
    ensures need[..|need| - 1] == NeedsBy(toks, count)
  {
    assert toks[..|toks|] == toks;
  }

  /** assign's strtok loop: feeds the tokens one by one into a list that
      ends in a pending entry, then drops that entry. */
  method ReadNeeds(toks: seq<string>, count: string -> int) returns (need: seq<Need>)
    requires forall k :: 0 <= k < |toks| ==> IsToken(toks[k], Delims)
    ensures need == NeedsBy(toks, count)
  {
    need := [Need("", 0)];
    var i := 0;
    while i < |toks|
      invariant Partial(need, toks, i, count)
    {
      need := Feed(need, toks, i, count);
      i := i + 1;
    }
    PartialDone(need, toks, count);
    need := need[..|need| - 1];
  }

  class QuestHandler {
    var current: seq<Quest>

    constructor ()
      ensures current == []
    {
      current := [];
    }

    /** assign: splits req into tokens as strtok does, reads them as
        name/count pairs, and appends the quest; always returns 0. */
    method Assign(title: string, desc: string, req: string) returns (r: int)
      modifies this
      ensures r == 0
      ensures current == old(current) + [Quest(title, desc, Needs(Tokens(req, Delims)))]
    {
      var need := ReadNeeds(Tokens(req, Delims), Atoi);
      current := current + [Quest(title, desc, need)];
      return 0;
    }

    /** drop: erases the first quest with the title and returns 0, or
        returns -1 and changes nothing when there is none. */
    method Drop(title: string) returns (r: int)
      modifies this
      ensures FirstTitled(old(current), title).None? ==> r == -1 && current == old(current)
      ensures FirstTitled(old(current), title).Some? ==>
                r == 0 && current == Without(old(current), FirstTitled(old(current), title).value)
    {
      var i := 0;
      while i < |current|
        invariant i <= |current|
        invariant forall j :: 0 <= j < i ==> current[j].title != title
      {
        if current[i].title == title {
          current := Without(current, i);
          return 0;
        }
        i := i + 1;
      }
      return -1;
    }

    /** finish: for the first quest titled t, returns 0 and changes nothing
        if the inventory lacks any requirement; otherwise takes every
        requirement (the returned calls), erases the quest and returns 1.
        An unknown title returns 0. */
    method Finish(t: string, hasItem: string -> int) returns (r: int, taken: seq<Need>)
      modifies this
      ensures var k := FirstTitled(old(current), t);
              if k.Some? && Ready(old(current)[k.value], hasItem) then
                r == 1 && taken == old(current)[k.value].need && current == Without(old(current), k.value)
              else
                r == 0 && taken == [] && current == old(current)
    {
      var i := 0;
      while i < |current|
        invariant i <= |current|
        invariant forall j :: 0 <= j < i ==> current[j].title != t
      {
        if current[i].title == t {
          var q := current[i];
          var j := 0;
          while j < |q.need|
            invariant j <= |q.need|
            invariant forall m :: 0 <= m < j ==> hasItem(q.need[m].name) >= q.need[m].n
          {
            if hasItem(q.need[j].name) < q.need[j].n {
              return 0, [];
            }
            j := j + 1;
          }
          taken := [];
          j := 0;
          while j < |q.need|
            invariant j <= |q.need| && taken == q.need[..j]
          {
            taken := taken + [q.need[j]];
            j := j + 1;
          }
          assert q.need[..j] == q.need;
          current := Without(current, i);
          return 1, taken;
        }
        i := i + 1;
      }
      return 0, [];
    }

    /** hasQuest: whether some current quest has the title. */
    method HasQuest(t: string) returns (r: bool)
      ensures r <==> exists i :: 0 <= i < |current| && current[i].title == t
      ensures r <==> FirstTitled(current, t).Some?
    {
      var i := 0;
      while i < |current|
        invariant i <= |current|
        invariant forall j :: 0 <= j < i ==> current[j].title != t
      {
        if current[i].title == t {
          return true;
        }
        i := i + 1;
      }
      return false;
    }
  }

  // ---------------------------------------------------------------------
  // Requirement strings

  /** The tokens of a requirement list: each name followed by its count. */
  function Pairs(ns: seq<Need>): (ts: seq<string>)
    ensures |ts| == 2 * |ns|
  {
    if |ns| == 0 then [] else [ns[0].name, ToDecimal(ns[0].n)] + Pairs(ns[1..])
  }

  /** A requirement string as a quest file writes it: name,count,... */
  function Requirement(ns: seq<Need>): string {
    Joined(Pairs(ns), ',')
  }

  /** A decimal count never holds a delimiter. */
  lemma DecimalIsToken(n: int)
    ensures IsToken(ToDecimal(n), Delims)
  {
    var s := ToDecimal(n);
    if n < 0 {
      var d := NatDigits(-n);
      assert s == "-" + d;
      forall i | 0 <= i < |s| ensures s[i] !in Delims {
        if i > 0 { assert s[i] == d[i - 1] && IsDigit(d[i - 1]); }
      }
    } else {
      forall i | 0 <= i < |s| ensures s[i] !in Delims {
        assert IsDigit(s[i]);
      }
    }
  }

  lemma {:induction false} PairsAreTokens(ns: seq<Need>)
    requires forall i :: 0 <= i < |ns| ==> IsToken(ns[i].name, Delims)
    ensures forall i :: 0 <= i < |Pairs(ns)| ==> IsToken(Pairs(ns)[i], Delims)
  {
    if |ns| > 0 {
      PairsAreTokens(ns[1..]);
      DecimalIsToken(ns[0].n);
      var ts := Pairs(ns);
      forall i | 0 <= i < |ts| ensures IsToken(ts[i], Delims) {
        if i >= 2 { assert ts[i] == Pairs(ns[1..])[i - 2]; }
      }
    }
  }

  lemma {:induction false} NeedsOfPairs(ns: seq<Need>)
    ensures Needs(Pairs(ns)) == ns
  {
    if |ns| > 0 {
      ParseToDecimal(ns[0].n);
      NeedsOfPairs(ns[1..]);
      assert Pairs(ns)[2..] == Pairs(ns[1..]);
    }
  }

  /** assign reads back every requirement list written as name,count
      pairs, provided no name is empty or holds a delimiter. */
  lemma AssignReadsRequirement(ns: seq<Need>)
    requires forall i :: 0 <= i < |ns| ==> IsToken(ns[i].name, Delims)
    ensures Needs(Tokens(Requirement(ns), Delims)) == ns
  {
    PairsAreTokens(ns);
    TokensOfJoined(Pairs(ns), ',', Delims);
    NeedsOfPairs(ns);
  }

  /** An empty requirement string gives no requirements, and a trailing
      name without a count is dropped. */
  lemma {:induction false} TrailingNameDropped(toks: seq<string>, name: string, count: string -> int)
    requires |toks| % 2 == 0
    ensures NeedsBy(toks + [name], count) == NeedsBy(toks, count)
    ensures NeedsBy(Tokens("", Delims), count) == []
  {
    if |toks| > 0 {
      assert (toks + [name])[2..] == toks[2..] + [name];
      TrailingNameDropped(toks[2..], name, count);
    }
  }

  /** A quest assigned under a title no current quest has is the one drop
      and finish find, and dropping it gives the list back. */
  lemma DropUndoesAssign(qs: seq<Quest>, q: Quest)
    requires FirstTitled(qs, q.title).None?
    ensures FirstTitled(qs + [q], q.title) == Some(|qs|)
    ensures Without(qs + [q], |qs|) == qs
  {
    var s := qs + [q];
    assert forall j :: 0 <= j < |qs| ==> s[j] == qs[j];
    assert s[..|qs|] == qs;
  }
}
