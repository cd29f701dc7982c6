/// The C and C++ library text routines the game relies on, written out:
/// std::to_string on an int, std::stoi and atoi (leading-integer parsing),
/// the newline search std::getline does, and strtok tokenising.

module CText {
  import opened Common

  predicate IsDigit(c: char) {
    '0' <= c <= '9'
  }

  /** The characters isspace accepts in the "C" locale. */
  predicate IsSpace(c: char) {
    c == ' ' || c == '\t' || c == '\n' || c == '\U{000B}' || c == '\U{000C}' || c == '\r'
  }

  predicate AllDigits(s: string) {
    forall i :: 0 <= i < |s| ==> IsDigit(s[i])
  }

  function DigitChar(d: nat): (c: char)
    requires d < 10
    ensures IsDigit(c)
  {
    "0123456789"[d]
  }

  function DigitValue(c: char): (d: nat)
    requires IsDigit(c)
    ensures d < 10
  {
    c as int - '0' as int
  }

  /** Decimal digits of n, most significant first, without leading zeros. */
  function NatDigits(n: nat): (s: string)
    ensures 0 < |s| && AllDigits(s)
    ensures n < 10 <==> |s| == 1
  {
    if n < 10 then [DigitChar(n)] else NatDigits(n / 10) + [DigitChar(n % 10)]
  }

  /** std::to_string(int): an optional minus sign and the decimal digits. */
  function ToDecimal(n: int): (s: string)
    ensures 0 < |s| && '\n' !in s
    ensures s[0] == '-' <==> n < 0
    ensures n >= 0 ==> AllDigits(s)
  {
    if n < 0 then "-" + NatDigits(-n) else NatDigits(n)
  }

  /** The value of a run of decimal digits. */
  function DigitsValue(s: string): nat
    requires AllDigits(s)
  {
    if |s| == 0 then 0 else DigitsValue(s[..|s| - 1]) * 10 + DigitValue(s[|s| - 1])
  }

  lemma {:induction false} DigitsValueOfNatDigits(n: nat)
    ensures DigitsValue(NatDigits(n)) == n
  {
    if n >= 10 {
      var s := NatDigits(n);
      assert s[..|s| - 1] == NatDigits(n / 10);
      DigitsValueOfNatDigits(n / 10);
    }
  }

  /** Length of the run of digits at the start of s. */
  function DigitRun(s: string): (k: nat)
    ensures k <= |s| && AllDigits(s[..k])
    ensures k < |s| ==> !IsDigit(s[k])
  {
    if |s| == 0 || !IsDigit(s[0]) then 0
    else
      var k := 1 + DigitRun(s[1..]);
      assert s[..k] == [s[0]] + s[1..][..k - 1];
      k
  }

  lemma {:induction false} DigitRunOfDigits(s: string)
    requires AllDigits(s)
    ensures DigitRun(s) == |s|
  {
    if |s| > 0 {
      DigitRunOfDigits(s[1..]);
    }
  }

  /** s without its leading white space. */
  function SkipSpace(s: string): (r: string)
    ensures |r| <= |s| && r == s[|s| - |r|..]
    ensures |r| > 0 ==> !IsSpace(r[0])
  {
    if |s| > 0 && IsSpace(s[0]) then SkipSpace(s[1..]) else s
  }

  /** The digits at the start of t, read as a number; None when t does not
      start with a digit. */
  function LeadingDigits(t: string): (r: Option<nat>)
    ensures r.None? <==> |t| == 0 || !IsDigit(t[0])
  {
    var k := DigitRun(t);
    if k == 0 then None else Some(DigitsValue(t[..k]))
  }

  /** The integer std::stoi reads from the start of s: leading white space,
      an optional sign, then at least one digit; the characters after the
      digits are ignored. None is the std::invalid_argument that stoi
      throws when no digit follows. */
  function ParseLeadingInt(s: string): (r: Option<int>)
  {
    var t := SkipSpace(s);
    var signed := |t| > 0 && (t[0] == '-' || t[0] == '+');
    match LeadingDigits(if signed then t[1..] else t)
    case None => None
    case Some(v) => Some(if signed && t[0] == '-' then -(v as int) else v as int)
  }

  /** atoi: the same reading, with 0 where nothing can be read. */
  function Atoi(s: string): int
  {
    match ParseLeadingInt(s)
    case None => 0
    case Some(v) => v
  }

  lemma LeadingDigitsOfDigits(d: string)
    requires 0 < |d| && AllDigits(d)
    ensures LeadingDigits(d) == Some(DigitsValue(d))
  {
    DigitRunOfDigits(d);
    assert d[..|d|] == d;
  }

  /** std::stoi reads back what std::to_string wrote, for every int. */
  lemma ParseToDecimal(n: int)
    ensures ParseLeadingInt(ToDecimal(n)) == Some(n)
    ensures Atoi(ToDecimal(n)) == n
  {
    var s := ToDecimal(n);
    var d := NatDigits(if n < 0 then -n else n);
    DigitsValueOfNatDigits(if n < 0 then -n else n);
    LeadingDigitsOfDigits(d);
    assert !IsSpace(s[0]);
    assert SkipSpace(s) == s;
    if n < 0 {
      assert s[1..] == d;
    } else {
      assert s == d;
    }
  }

  /** A line with no digit at all cannot be read as an integer. */
  lemma ParseNeedsDigit(s: string)
    requires forall i :: 0 <= i < |s| ==> !IsDigit(s[i])
    ensures ParseLeadingInt(s) == None
  {
    var t := SkipSpace(s);
    assert forall i :: 0 <= i < |t| ==> t[i] == s[|s| - |t| + i];
    assert |t| > 1 ==> t[1..][0] == t[1];
  }

  /** Index of the first newline in s, or |s| when there is none. */
  function NewlineAt(s: string): (k: nat)
    ensures k <= |s| && '\n' !in s[..k]
    ensures k < |s| ==> s[k] == '\n'
  {
    if |s| == 0 || s[0] == '\n' then 0
    else
      var k := 1 + NewlineAt(s[1..]);
      assert s[..k] == [s[0]] + s[1..][..k - 1];
      k
  }

  lemma NewlineAtLine(l: string, rest: string)
    requires '\n' !in l
    ensures NewlineAt(l + "\n" + rest) == |l|
  {
    var s := l + "\n" + rest;
    if |l| > 0 {
      assert s[1..] == l[1..] + "\n" + rest;
      NewlineAtLine(l[1..], rest);
    }
  }

  /** Length of the run of non-delimiters at the start of s. */
  function TokenRun(s: string, delims: set<char>): (k: nat)
    ensures k <= |s|
    ensures forall i :: 0 <= i < k ==> s[i] !in delims
    ensures k < |s| ==> s[k] in delims
  {
    if |s| == 0 || s[0] in delims then 0 else 1 + TokenRun(s[1..], delims)
  }

  predicate IsToken(t: string, delims: set<char>) {
    0 < |t| && forall i :: 0 <= i < |t| ==> t[i] !in delims
  }

  /** The tokens successive strtok calls return: the maximal non-empty runs
      of characters outside delims, in order. */
  function Tokens(s: string, delims: set<char>): (ts: seq<string>)
    ensures forall i :: 0 <= i < |ts| ==> IsToken(ts[i], delims)
    decreases |s|
  {
    if |s| == 0 then []
    else if s[0] in delims then Tokens(s[1..], delims)
    else
      var k := TokenRun(s, delims);
      [s[..k]] + Tokens(s[k..], delims)
  }

  /** Tokens written one after the other, separated by sep. */
  function Joined(ts: seq<string>, sep: char): string
  {
    if |ts| == 0 then ""
    else if |ts| == 1 then ts[0]
    else ts[0] + [sep] + Joined(ts[1..], sep)
  }

  lemma TokenRunOfToken(t: string, rest: string, delims: set<char>)
    requires IsToken(t, delims)
    requires |rest| == 0 || rest[0] in delims
    ensures TokenRun(t + rest, delims) == |t|
  {
    var s := t + rest;
    assert forall i :: 0 <= i < |t| ==> s[i] == t[i];
    assert |t| < |s| ==> s[|t|] == rest[0];
  }

  /** strtok over tokens joined by one of its delimiters gives back the
      tokens. */
  lemma {:induction false} TokensOfJoined(ts: seq<string>, sep: char, delims: set<char>)
    requires sep in delims
    requires forall i :: 0 <= i < |ts| ==> IsToken(ts[i], delims)
    ensures Tokens(Joined(ts, sep), delims) == ts
  {
    if |ts| == 1 {
      var t := ts[0];
      TokenRunOfToken(t, "", delims);
      assert t + "" == t;
      assert t[|t|..] == "";
      assert t[..|t|] == t;
    } else if |ts| > 1 {
      var t := ts[0];
      var rest := Joined(ts[1..], sep);
      var s := Joined(ts, sep);
      assert s == t + ([sep] + rest);
      TokenRunOfToken(t, [sep] + rest, delims);
      assert s[..|t|] == t;
      assert s[|t|..] == [sep] + rest;
      assert ([sep] + rest)[1..] == rest;
      TokensOfJoined(ts[1..], sep, delims);
      assert ts == [t] + ts[1..];
    }
  }
}
