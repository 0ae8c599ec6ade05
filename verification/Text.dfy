/** Byte strings, the searching, trimming and case-folding the HTTP layer does on them, and decimal numerals. */
module Text {

  const SP := ' '
  const HT := '\t'
  const CR := '\r'
  const LF := '\n'

  // ---- Searching ----------------------------------------------------------

  /** Index of the first c in s; |s| stands for "not found". */
  function Find(s: string, c: char): (i: nat)
    ensures i <= |s|
    ensures i < |s| ==> s[i] == c
    ensures c !in s[..i]
  {
    if s == "" then 0
    else if s[0] == c then 0
    else
      assert s[..1 + Find(s[1..], c)] == [s[0]] + s[1..][..Find(s[1..], c)];
      1 + Find(s[1..], c)
  }

  /** The first occurrence is the only index with a c and no c before it. */
  lemma FindIs(s: string, c: char, i: nat)
    requires i < |s| && s[i] == c && c !in s[..i]
    ensures Find(s, c) == i
  {
    if i > 0 {
      assert s[..i][0] == s[0] && s[..i][1..] == s[1..][..i - 1];
      FindIs(s[1..], c, i - 1);
    }
  }

  lemma FindAbsent(s: string, c: char)
    requires c !in s
    ensures Find(s, c) == |s|
  {
  }

  lemma FindPresent(s: string, c: char)
    requires c in s
    ensures Find(s, c) < |s|
  {
    assert s[..|s|] == s;
  }

  /** Finding after a prefix without c skips exactly that prefix. */
  lemma FindAfter(a: string, c: char, b: string)
    requires c !in a
    ensures Find(a + [c] + b, c) == |a|
  {
    var s := a + [c] + b;
    assert s[..|a|] == a;
    FindIs(s, c, |a|);
  }

  // ---- Case folding -------------------------------------------------------

  function LowerChar(c: char): char {
    if 'A' <= c <= 'Z' then (c as int - 'A' as int + 'a' as int) as char else c
  }

  /** Lower-cases the 26 capital letters, as tolower does in the C locale. */
  function Lower(s: string): (t: string)
    ensures |t| == |s|
    ensures forall i :: 0 <= i < |s| ==> t[i] == LowerChar(s[i])
  {
    if s == "" then "" else [LowerChar(s[0])] + Lower(s[1..])
  }

  predicate NameChar(c: char) { 'a' <= c <= 'z' || c == '-' }

  lemma LowerFixes(s: string)
    requires forall i :: 0 <= i < |s| ==> NameChar(s[i])
    ensures Lower(s) == s && ':' !in s && LF !in s
  {
  }

  // ---- Trimming -----------------------------------------------------------

  predicate Blank(c: char) { c == SP || c == HT }

  predicate AllBlank(s: string) { forall i :: 0 <= i < |s| ==> Blank(s[i]) }

  function TrimLeft(s: string): string {
    if s != "" && Blank(s[0]) then TrimLeft(s[1..]) else s
  }

  function TrimRight(s: string): string {
    if s != "" && Blank(s[|s| - 1]) then TrimRight(s[..|s| - 1]) else s
  }

  function Trimmed(s: string): string { TrimRight(TrimLeft(s)) }

  /** No blank at either end. */
  predicate IsTrim(s: string) { s == "" || (!Blank(s[0]) && !Blank(s[|s| - 1])) }

  lemma {:induction false} TrimLeftSplits(s: string)
    ensures |TrimLeft(s)| <= |s|
    ensures AllBlank(s[..|s| - |TrimLeft(s)|])
    ensures s[|s| - |TrimLeft(s)|..] == TrimLeft(s)
    ensures TrimLeft(s) == "" || !Blank(TrimLeft(s)[0])
  {
    if s != "" && Blank(s[0]) {
      TrimLeftSplits(s[1..]);
    }
  }

  lemma {:induction false} TrimRightSplits(s: string)
    ensures |TrimRight(s)| <= |s|
    ensures AllBlank(s[|TrimRight(s)|..])
    ensures s[..|TrimRight(s)|] == TrimRight(s)
    ensures TrimRight(s) == "" || !Blank(TrimRight(s)[|TrimRight(s)| - 1])
  {
    if s != "" && Blank(s[|s| - 1]) {
      TrimRightSplits(s[..|s| - 1]);
    }
  }

  /** Trimming cuts a string into blanks, the result without blanks at its ends, and blanks. */
  lemma TrimmedSplits(s: string) returns (left: string, right: string)
    ensures s == left + Trimmed(s) + right
    ensures AllBlank(left) && AllBlank(right) && IsTrim(Trimmed(s))
  {
    hide TrimLeft, TrimRight;
    TrimLeftSplits(s);
    TrimRightSplits(TrimLeft(s));
    left := s[..|s| - |TrimLeft(s)|];
    right := TrimLeft(s)[|Trimmed(s)|..];
    assert TrimLeft(s) == Trimmed(s) + right;
  }

  /** Blanks around a string without blanks at its ends are exactly what trimming removes. */
  lemma {:induction false} TrimmedPadded(left: string, v: string, right: string)
    requires AllBlank(left) && AllBlank(right) && IsTrim(v)
    ensures Trimmed(left + v + right) == v
    decreases |left| + |right|
  {
    if left != "" {
      assert (left + v + right)[1..] == left[1..] + v + right;
      TrimmedPadded(left[1..], v, right);
    } else if v == "" {
      assert left + v + right == right;
      TrimLeftOfBlanks(right);
    } else if right != "" {
      var r := right[..|right| - 1];
      assert left + v + right == v + right;
      assert (v + right)[..|v + right| - 1] == v + r;
      TrimmedPadded("", v, r);
      assert "" + v + r == v + r;
    } else {
      assert left + v + right == v;
    }
  }

  lemma {:induction false} TrimLeftOfBlanks(s: string)
    requires AllBlank(s)
    ensures TrimLeft(s) == ""
  {
    if s != "" { TrimLeftOfBlanks(s[1..]); }
  }

  // ---- Decimal numerals ---------------------------------------------------

  predicate Digit(c: char) { '0' <= c <= '9' }

  predicate AllDigits(s: string) { forall i :: 0 <= i < |s| ==> Digit(s[i]) }

  function DigitChar(d: nat): (c: char)
    requires d < 10
    ensures Digit(c)
  {
    ('0' as int + d) as char
  }

  function DigitValue(c: char): (d: nat)
    requires Digit(c)
    ensures d < 10
  {
    c as int - '0' as int
  }

  /** Value of a numeral, most significant digit first. */
  function Value(s: string): nat
    requires AllDigits(s)
  {
    if s == "" then 0 else 10 * Value(s[..|s| - 1]) + DigitValue(s[|s| - 1])
  }

  /** The shortest numeral of n, as std::to_string prints it. */
  function Numeral(n: nat): (s: string)
    ensures s != "" && AllDigits(s)
  {
    if n < 10 then [DigitChar(n)] else Numeral(n / 10) + [DigitChar(n % 10)]
  }

  lemma {:induction false} ValueOfNumeral(n: nat)
    ensures Value(Numeral(n)) == n
  {
    if n < 10 {
      assert Numeral(n)[..0] == "";
    } else {
      ValueOfNumeral(n / 10);
      assert Numeral(n)[..|Numeral(n)| - 1] == Numeral(n / 10);
    }
  }

  /** Length of the longest prefix made of digits. */
  function DigitPrefix(s: string): (k: nat)
    ensures k <= |s| && AllDigits(s[..k])
    ensures k < |s| ==> !Digit(s[k])
  {
    if s == "" || !Digit(s[0]) then 0
    else
      assert forall i :: 0 < i <= |s| ==> s[..i][1..] == s[1..][..i - 1];
      1 + DigitPrefix(s[1..])
  }

  lemma DigitPrefixOfNumeral(s: string)
    requires AllDigits(s)
    ensures DigitPrefix(s) == |s|
  {
  }
}
