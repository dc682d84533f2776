/**
  String helpers that stand for the few JavaScript string operations the front end uses:
  truthiness of an optional string, `a || b`, `endsWith`, `toLowerCase` on the characters
  that matter here, `replace(/c/g, '')` and `trim`.
*/
module Text {
  import opened Wrappers

  /** JavaScript truthiness of a `string | null | undefined` value: present and non-empty. */
  predicate Truthy(o: Option<string>) {
    o.Some? && o.value != ""
  }

  /** `o || fallback` for an optional string. */
  function OrElse(o: Option<string>, fallback: string): (r: string)
    ensures Truthy(o) ==> r == o.value
    ensures !Truthy(o) ==> r == fallback
  {
    if Truthy(o) then o.value else fallback
  }

  /** `s.endsWith(suffix)`: case-sensitive. */
  predicate EndsWith(s: string, suffix: string) {
    |suffix| <= |s| && s[|s| - |suffix|..] == suffix
  }

  /** Lower-casing of one character, for the ASCII letters A-Z. */
  function LowerChar(c: char): (d: char)
    ensures 'A' <= c <= 'Z' ==> d as int == c as int + 32
    ensures !('A' <= c <= 'Z') ==> d == c
  {
    if 'A' <= c <= 'Z' then (c as int + 32) as char else c
  }

  /** `s.toLowerCase()` restricted to ASCII letters, character by character. */
  function Lower(s: string): (r: string)
    ensures |r| == |s|
    ensures forall i :: 0 <= i < |s| ==> r[i] == LowerChar(s[i])
  {
    seq(|s|, i requires 0 <= i < |s| => LowerChar(s[i]))
  }

  /**
    The characters `String.prototype.trim` removes: the WhiteSpace and
    LineTerminator code points of ECMAScript (section 12.2 and 12.3 of ECMA-262),
    that is TAB, VT, FF, SPACE, NBSP, ZWNBSP, the Unicode Zs separators, LF, CR,
    LINE SEPARATOR and PARAGRAPH SEPARATOR.
  */
  predicate IsJsWhiteSpace(c: char) {
    c == '\t' || c == '\U{000B}' || c == '\U{000C}' || c == ' ' || c == '\U{00A0}' || c == '\U{FEFF}'
    || c == '\U{1680}' || ('\U{2000}' <= c <= '\U{200A}') || c == '\U{202F}' || c == '\U{205F}'
    || c == '\U{3000}' || c == '\n' || c == '\r' || c == '\U{2028}' || c == '\U{2029}'
  }

  /** `s.trimStart()`: the longest suffix of `s` that does not start with white space. */
  function TrimStart(s: string): (r: string)
    ensures |r| <= |s| && r == s[|s| - |r|..]
    ensures r != [] ==> !IsJsWhiteSpace(r[0])
    ensures forall i :: 0 <= i < |s| - |r| ==> IsJsWhiteSpace(s[i])
  {
    if s != [] && IsJsWhiteSpace(s[0]) then TrimStart(s[1..]) else s
  }

  /** `s.trimEnd()`: the longest prefix of `s` that does not end with white space. */
  function TrimEnd(s: string): (r: string)
    ensures |r| <= |s| && r == s[..|r|]
    ensures r != [] ==> !IsJsWhiteSpace(r[|r| - 1])
    ensures forall i :: |r| <= i < |s| ==> IsJsWhiteSpace(s[i])
  {
    if s != [] && IsJsWhiteSpace(s[|s| - 1]) then TrimEnd(s[..|s| - 1]) else s
  }

  /** `s.trim()`. */
  function Trim(s: string): string {
    TrimEnd(TrimStart(s))
  }

  /** `s.replace(/c/g, '')`: every occurrence of `c` removed, the rest in order. */
  function RemoveAll(s: string, c: char): (r: string)
    ensures c !in r
    ensures |r| <= |s|
    ensures c !in s ==> r == s
    ensures multiset(r) == multiset(s)[c := 0]
  {
    if s == [] then []
    else
      assert s == [s[0]] + s[1..];
      (if s[0] == c then [] else [s[0]]) + RemoveAll(s[1..], c)
  }

  /** `replace(/c/g, '')` works character by character: removing from a concatenation removes from each part. */
  lemma {:induction false} RemoveAllAppend(a: string, b: string, c: char)
    ensures RemoveAll(a + b, c) == RemoveAll(a, c) + RemoveAll(b, c)
  {
    if a != [] {
      assert (a + b)[0] == a[0] && (a + b)[1..] == a[1..] + b;
      RemoveAllAppend(a[1..], b, c);
      ConcatAssoc(if a[0] == c then [] else [a[0]], RemoveAll(a[1..], c), RemoveAll(b, c));
    } else {
      assert a + b == b;
    }
  }

  /** On one character: `c` itself disappears and every other character stays. */
  lemma RemoveAllOne(d: char, c: char)
    ensures RemoveAll([d], c) == (if d == c then [] else [d])
  {
    assert [d][1..] == [];
  }

  /** `s.split(c)[0]`, and the greedy run `[^c]*`: the longest prefix of `s` free of `c`. */
  function UpTo(s: string, c: char): (r: string)
    ensures |r| <= |s| && r == s[..|r|]
    ensures c !in r
    ensures |r| < |s| ==> s[|r|] == c
  {
    if s == [] || s[0] == c then [] else [s[0]] + UpTo(s[1..], c)
  }

  predicate IsDigit(c: char) {
    '0' <= c <= '9'
  }

  /** The decimal digit of `d`. */
  function DigitChar(d: nat): (c: char)
    requires d < 10
    ensures IsDigit(c) && c as int - '0' as int == d
  {
    ('0' as int + d) as char
  }

  /** A decimal numeral as `toString` writes one: digits only, and no leading zero unless it is `0`. */
  predicate IsNumeral(s: string) {
    s != [] && (forall i :: 0 <= i < |s| ==> IsDigit(s[i])) && (|s| > 1 ==> s[0] != '0')
  }

  /** The number a string of decimal digits stands for, most significant digit first. */
  function DigitsValue(s: string): int {
    if s == [] then 0 else DigitsValue(s[..|s| - 1]) * 10 + (s[|s| - 1] as int - '0' as int)
  }

  /** `n.toString()` for a natural number: the numeral whose value is `n`. */
  function NatText(n: nat): (s: string)
    ensures IsNumeral(s)
    ensures DigitsValue(s) == n
  {
    if n < 10 then
      var s := [DigitChar(n)];
      assert s[..0] == [];
      s
    else
      var s := NatText(n / 10) + [DigitChar(n % 10)];
      assert s[..|s| - 1] == NatText(n / 10);
      s
  }

  /** A string of digits stands for at least its leading digit. */
  lemma {:induction false} DigitsValueAtLeastLead(s: string)
    requires s != [] && forall i :: 0 <= i < |s| ==> IsDigit(s[i])
    ensures DigitsValue(s) >= s[0] as int - '0' as int >= 0
  {
    if |s| > 1 {
      var a := s[..|s| - 1];
      assert a[0] == s[0];
      DigitsValueAtLeastLead(a);
    } else {
      assert s[..0] == [];
    }
  }

  /** Dividing `q * 10 + d` by ten gives back `q` and the digit `d`. */
  lemma DivModTen(q: int, d: int)
    requires 0 <= d < 10
    ensures (q * 10 + d) / 10 == q && (q * 10 + d) % 10 == d
  {
  }

  /** The text of a number of two or more digits: the text of its tens, then its last digit. */
  lemma NatTextSplit(q: nat, d: nat)
    requires q >= 1 && d < 10
    ensures NatText(q * 10 + d) == NatText(q) + [DigitChar(d)]
  {
    DivModTen(q, d);
  }

  /** `NatText(n)` is the only numeral of `n`: the text of a number is fixed by its value. */
  lemma {:induction false} NumeralIsNatText(s: string)
    requires IsNumeral(s)
    ensures DigitsValue(s) >= 0 && s == NatText(DigitsValue(s))
  {
    var d := s[|s| - 1] as int - '0' as int;
    var a := s[..|s| - 1];
    assert DigitChar(d) == s[|s| - 1];
    if |s| == 1 {
      assert a == [];
    } else {
      assert a[0] == s[0] != '0';
      assert IsNumeral(a);
      NumeralIsNatText(a);
      DigitsValueAtLeastLead(a);
      NatTextSplit(DigitsValue(a), d);
      assert s == a + [s[|s| - 1]];
    }
  }

  /** `i.toString()` for an integer: the numeral of its magnitude, after a `-` when it is negative. */
  function IntText(i: int): (s: string)
    ensures i >= 0 ==> IsNumeral(s) && DigitsValue(s) == i
    ensures i < 0 ==> |s| > 1 && s[0] == '-' && IsNumeral(s[1..]) && DigitsValue(s[1..]) == -i
  {
    if i >= 0 then NatText(i) else
      var s := "-" + NatText(-i);
      assert s[1..] == NatText(-i);
      s
  }

  /** Concatenation regroups freely; stated once so that long proofs can regroup in one step. */
  lemma ConcatAssoc<T>(a: seq<T>, b: seq<T>, c: seq<T>)
    ensures (a + b) + c == a + (b + c)
  {
  }
}
