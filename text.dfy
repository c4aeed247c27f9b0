/** The string operations the gallery relies on: lower-casing, trimming,
  * substring search, decimal formatting, capitalising and cutting a file
  * name at its first dot. Case mapping covers ASCII letters only. */
module Text {

  predicate IsUpper(c: char) { 'A' <= c <= 'Z' }

  predicate IsLowerLetter(c: char) { 'a' <= c <= 'z' }

  predicate IsDigit(c: char) { '0' <= c <= '9' }

  /** Lower-cases one ASCII letter; every other character is kept. */
  function LowerChar(c: char): (r: char)
    ensures !IsUpper(r)
    ensures IsUpper(c) ==> IsLowerLetter(r) && r as int == c as int + 32
    ensures !IsUpper(c) ==> r == c
  {
    if IsUpper(c) then (c as int + 32) as char else c
  }

  /** Upper-cases one ASCII letter; every other character is kept. */
  function UpperChar(c: char): (r: char)
    ensures LowerChar(r) == LowerChar(c)
    ensures IsLowerLetter(c) ==> IsUpper(r)
    ensures !IsLowerLetter(c) ==> r == c
  {
    if IsLowerLetter(c) then (c as int - 32) as char else c
  }

  /** `toLowerCase` on the ASCII range. */
  function Lower(s: string): (r: string)
    ensures |r| == |s|
    ensures forall i :: 0 <= i < |r| ==> !IsUpper(r[i])
    ensures forall i :: 0 <= i < |s| && !IsUpper(s[i]) ==> r[i] == s[i]
    ensures forall i :: 0 <= i < |s| && IsUpper(s[i]) ==> r[i] as int == s[i] as int + 32
  {
    seq(|s|, i requires 0 <= i < |s| => LowerChar(s[i]))
  }

  lemma LowerConcat(a: string, b: string)
    ensures Lower(a + b) == Lower(a) + Lower(b)
  {
  }

  /** Lower-casing twice is lower-casing once. */
  lemma LowerIdempotent(s: string)
    ensures Lower(Lower(s)) == Lower(s)
  {
  }

  /** Lower-casing leaves a string without upper-case letters unchanged. */
  lemma LowerNoUpper(s: string)
    requires forall x :: x in s ==> !IsUpper(x)
    ensures Lower(s) == s
  {
  }

  /** The white space and line terminators that `trim` removes. */
  predicate IsSpace(c: char) {
    || c == '\t' || c == '\n' || c == '\U{000B}' || c == '\U{000C}' || c == '\r'
    || c == ' ' || c == '\U{00A0}' || c == '\U{1680}' || ('\U{2000}' <= c <= '\U{200A}')
    || c == '\U{2028}' || c == '\U{2029}' || c == '\U{202F}' || c == '\U{205F}'
    || c == '\U{3000}' || c == '\U{FEFF}'
  }

  /** How many white-space characters `s` starts with. */
  function LeadingSpaces(s: string): (k: nat)
    ensures k <= |s|
    ensures forall i :: 0 <= i < k ==> IsSpace(s[i])
    ensures k < |s| ==> !IsSpace(s[k])
  {
    if |s| > 0 && IsSpace(s[0]) then 1 + LeadingSpaces(s[1..]) else 0
  }

  /** How many white-space characters `s` ends with. */
  function TrailingSpaces(s: string): (k: nat)
    ensures k <= |s|
    ensures forall i :: |s| - k <= i < |s| ==> IsSpace(s[i])
    ensures k < |s| ==> !IsSpace(s[|s| - 1 - k])
  {
    if |s| > 0 && IsSpace(s[|s| - 1]) then 1 + TrailingSpaces(s[..|s| - 1]) else 0
  }

  /** `trim`: `s` without its leading and trailing white space. The result is
    * the slice of `s` that starts at its first non-space character, and it is
    * empty exactly when `s` is blank. */
  function Trim(s: string): (r: string)
    ensures var a := LeadingSpaces(s);
      && a + |r| <= |s|
      && s[a..a + |r|] == r
      && (forall i :: a + |r| <= i < |s| ==> IsSpace(s[i]))
    ensures r == [] <==> forall i :: 0 <= i < |s| ==> IsSpace(s[i])
    ensures r != [] ==> !IsSpace(r[0]) && !IsSpace(r[|r| - 1])
  {
    var t := s[LeadingSpaces(s)..];
    var r := t[..|t| - TrailingSpaces(t)];
    assert r != [] ==> r[0] == t[0];
    r
  }

  /** `s` and `t` have white space at the same positions. */
  ghost predicate SameSpaces(s: string, t: string) {
    |s| == |t| && forall i :: 0 <= i < |s| ==> IsSpace(s[i]) == IsSpace(t[i])
  }

  /** Lower-casing keeps every white-space character and adds none. */
  lemma LowerSameSpaces(s: string)
    ensures SameSpaces(Lower(s), s)
  {
  }

  lemma {:induction false} LeadingSpacesSame(s: string, t: string)
    requires SameSpaces(s, t)
    ensures LeadingSpaces(s) == LeadingSpaces(t)
  {
    if |s| > 0 && IsSpace(s[0]) {
      LeadingSpacesSame(s[1..], t[1..]);
    }
  }

  lemma {:induction false} TrailingSpacesSame(s: string, t: string)
    requires SameSpaces(s, t)
    ensures TrailingSpaces(s) == TrailingSpaces(t)
  {
    if |s| > 0 && IsSpace(s[|s| - 1]) {
      TrailingSpacesSame(s[..|s| - 1], t[..|t| - 1]);
    }
  }

  /** Trimming a trimmed string changes nothing. */
  lemma TrimIdempotent(s: string)
    ensures Trim(Trim(s)) == Trim(s)
  {
    var r := Trim(s);
    var a, b := LeadingSpaces(r), TrailingSpaces(r);
    assert a == 0;
    assert b == 0;
    assert r[0..|r|] == r;
  }

  /** A string without white space is its own trimmed form. */
  lemma TrimNoSpace(s: string)
    requires forall x :: x in s ==> !IsSpace(x)
    ensures Trim(s) == s
  {
    var r := Trim(s);
    assert LeadingSpaces(s) == 0;
    assert |r| == |s|;
  }

  lemma LowerDrop(s: string, a: nat)
    requires a <= |s|
    ensures Lower(s)[a..] == Lower(s[a..])
  {
  }

  lemma LowerTake(s: string, e: nat)
    requires e <= |s|
    ensures Lower(s)[..e] == Lower(s[..e])
  {
  }

  /** Lower-casing and trimming commute: the query is lower-cased before it is
    * trimmed, and the test for a blank query trims before lower-casing. */
  lemma {:induction false} TrimLowerCommute(s: string)
    ensures Trim(Lower(s)) == Lower(Trim(s))
  {
    LowerSameSpaces(s);
    LeadingSpacesSame(Lower(s), s);
    var t := s[LeadingSpaces(s)..];
    LowerDrop(s, LeadingSpaces(s));
    LowerSameSpaces(t);
    TrailingSpacesSame(Lower(t), t);
    LowerTake(t, |t| - TrailingSpaces(t));
  }

  /** `needle` occurs in `hay` starting at index `i`. */
  ghost predicate OccursAt(hay: string, needle: string, i: nat) {
    i + |needle| <= |hay| && hay[i..i + |needle|] == needle
  }

  lemma OccursShift(hay: string, needle: string)
    requires |hay| > 0 && !OccursAt(hay, needle, 0)
    ensures (exists i: nat :: OccursAt(hay, needle, i)) <==> (exists i: nat :: OccursAt(hay[1..], needle, i))
  {
    if i: nat :| OccursAt(hay, needle, i) {
      assert i > 0;
      assert hay[1..][i - 1..i - 1 + |needle|] == hay[i..i + |needle|];
      assert OccursAt(hay[1..], needle, i - 1);
    }
    if i: nat :| OccursAt(hay[1..], needle, i) {
      assert hay[1..][i..i + |needle|] == hay[i + 1..i + 1 + |needle|];
      assert OccursAt(hay, needle, i + 1);
    }
  }

  /** A needle whose first character occurs nowhere in the lower-cased text
    * is not contained in it. */
  lemma FirstCharMisses(t: string, q: string)
    requires |q| > 0 && forall x :: x in t ==> LowerChar(x) != q[0]
    ensures forall p: nat :: !OccursAt(Lower(t), q, p)
  {
    forall p: nat ensures !OccursAt(Lower(t), q, p) {
      if p + |q| <= |t| {
        assert Lower(t)[p..p + |q|][0] == LowerChar(t[p]);
        assert t[p] in t;
      }
    }
  }

  /** `includes`: `needle` occurs somewhere in `hay` (the empty string occurs
    * everywhere). */
  function Includes(hay: string, needle: string): (r: bool)
    ensures r <==> exists i: nat :: OccursAt(hay, needle, i)
    decreases |hay|
  {
    if |needle| > |hay| then
      assert forall i: nat :: !OccursAt(hay, needle, i);
      false
    else if hay[..|needle|] == needle then
      assert OccursAt(hay, needle, 0);
      true
    else
      OccursShift(hay, needle);
      Includes(hay[1..], needle)
  }

  function DigitChar(d: nat): (c: char)
    requires d < 10
    ensures IsDigit(c)
  {
    ('0' as int + d) as char
  }

  /** The number a string of decimal digits denotes. */
  function DigitsValue(s: string): nat
    requires forall i :: 0 <= i < |s| ==> IsDigit(s[i])
  {
    if s == [] then 0
    else
      assert IsDigit(s[|s| - 1]);
      DigitsValue(s[..|s| - 1]) * 10 + (s[|s| - 1] as int - '0' as int)
  }

  /** The decimal form of `n`, as a template literal renders a non-negative
    * integer: non-empty, digits only, no leading zero, denoting `n`. */
  function NatToString(n: nat): (r: string)
    ensures |r| > 0
    ensures forall i :: 0 <= i < |r| ==> IsDigit(r[i])
    ensures |r| > 1 ==> r[0] != '0'
    ensures DigitsValue(r) == n
    decreases n
  {
    if n < 10 then [DigitChar(n)]
    else
      var p := NatToString(n / 10);
      assert (p + [DigitChar(n % 10)])[..|p|] == p;
      p + [DigitChar(n % 10)]
  }

  /** Different numbers are written differently. */
  lemma NatToStringInjective(m: nat, n: nat)
    ensures NatToString(m) == NatToString(n) ==> m == n
  {
  }

  /** `s.charAt(0).toUpperCase() + s.slice(1)`; only the case of the first
    * character can change. */
  function Capitalize(s: string): (r: string)
    ensures |r| == |s|
    ensures |s| > 0 ==> r[1..] == s[1..]
    ensures Lower(r) == Lower(s)
    ensures |s| > 0 && IsLowerLetter(s[0]) ==> IsUpper(r[0])
    ensures |s| > 0 && !IsLowerLetter(s[0]) ==> r[0] == s[0]
  {
    if s == [] then [] else [UpperChar(s[0])] + s[1..]
  }

  /** `s.split('.')[0]`: the longest prefix of `s` without a dot. */
  function BeforeFirstDot(s: string): (r: string)
    ensures '.' !in r
    ensures |r| <= |s| && r == s[..|r|]
    ensures |r| < |s| ==> s[|r|] == '.'
  {
    if s == [] || s[0] == '.' then [] else [s[0]] + BeforeFirstDot(s[1..])
  }
}
