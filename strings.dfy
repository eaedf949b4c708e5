/**
 * String primitives shared by the Java and the TypeScript models: character
 * classes, trimming, splitting on one character, joining, substring search,
 * decimal rendering and the code-unit order used for sorting.
 */
module Strings {
  import opened Wrappers

  predicate IsAsciiLower(c: char) { 'a' <= c <= 'z' }
  predicate IsAsciiUpper(c: char) { 'A' <= c <= 'Z' }
  predicate IsDigit(c: char) { '0' <= c <= '9' }
  predicate IsAsciiLetter(c: char) { IsAsciiLower(c) || IsAsciiUpper(c) }

  /** JavaScript truthiness of an optional string: present and non-empty. */
  predicate Truthy(s: Option<string>) { s.Some? && s.value != "" }

  /** Lower-casing of one character (ASCII letters only). */
  function LowerChar(c: char): (r: char)
    ensures IsAsciiUpper(c) ==> IsAsciiLower(r)
    ensures !IsAsciiUpper(c) ==> r == c
  {
    if IsAsciiUpper(c) then (c as int + 32) as char else c
  }

  function ToLower(s: string): (r: string)
    ensures |r| == |s|
    ensures forall i :: 0 <= i < |s| ==> r[i] == LowerChar(s[i])
  {
    if s == [] then [] else [LowerChar(s[0])] + ToLower(s[1..])
  }

  lemma ToLowerAppend(a: string, b: string)
    ensures ToLower(a + b) == ToLower(a) + ToLower(b)
  {
    var l, m := ToLower(a + b), ToLower(a) + ToLower(b);
    assert forall i :: 0 <= i < |l| ==> l[i] == m[i] by {
      forall i | 0 <= i < |l| ensures l[i] == m[i] {
        if i < |a| { assert (a + b)[i] == a[i]; } else { assert (a + b)[i] == b[i - |a|]; }
      }
    }
  }

  // ---------------------------------------------------------------------
  // Java string lengths
  // ---------------------------------------------------------------------

  /**
   * String.length() in Java: the number of UTF-16 code units, so a
   * character outside the Basic Multilingual Plane counts twice.
   */
  function Utf16Length(s: string): (r: nat)
    ensures |s| <= r <= 2 * |s|
  {
    if s == [] then 0 else (if s[0] <= '\U{FFFF}' then 1 else 2) + Utf16Length(s[1..])
  }

  /** For text in the Basic Multilingual Plane the Java length is the character count. */
  lemma {:induction false} Utf16LengthBmp(s: string)
    requires forall i :: 0 <= i < |s| ==> s[i] <= '\U{FFFF}'
    ensures Utf16Length(s) == |s|
  {
    if s != [] {
      assert s[0] <= '\U{FFFF}';
      Utf16LengthBmp(s[1..]);
    }
  }

  // ---------------------------------------------------------------------
  // Trimming
  // ---------------------------------------------------------------------

  /** The characters String.prototype.trim removes: WhiteSpace and LineTerminator. */
  predicate IsJsWhitespace(c: char)
  {
    c == '\t' || c == '\n' || c == '\U{000B}' || c == '\U{000C}' || c == '\r' || c == ' '
    || c == '\U{00A0}' || c == '\U{1680}' || ('\U{2000}' <= c <= '\U{200A}')
    || c == '\U{2028}' || c == '\U{2029}' || c == '\U{202F}' || c == '\U{205F}'
    || c == '\U{3000}' || c == '\U{FEFF}'
  }

  /** The characters java.lang.String.trim removes: every code point up to U+0020. */
  predicate IsJavaTrimmable(c: char) { c <= ' ' }

  function TrimStart(s: string, isSpace: char -> bool): (r: string)
    ensures |r| <= |s|
    ensures forall i :: 0 <= i < |s| - |r| ==> isSpace(s[i])
    ensures r == [] || !isSpace(r[0])
  {
    if s == [] || !isSpace(s[0]) then s else TrimStart(s[1..], isSpace)
  }

  /** What TrimStart leaves is a suffix of its input. */
  lemma {:induction false} TrimStartIsSuffix(s: string, isSpace: char -> bool)
    ensures TrimStart(s, isSpace) == s[|s| - |TrimStart(s, isSpace)|..]
  {
    if s != [] && isSpace(s[0]) {
      TrimStartIsSuffix(s[1..], isSpace);
    }
  }

  /** A string of spaces only trims to nothing. */
  lemma AllSpaceTrimStart(s: string, isSpace: char -> bool)
    requires forall i :: 0 <= i < |s| ==> isSpace(s[i])
    ensures TrimStart(s, isSpace) == []
  {
    TrimStartIsSuffix(s, isSpace);
  }

  function TrimEnd(s: string, isSpace: char -> bool): (r: string)
    ensures |r| <= |s|
    ensures forall i :: |r| <= i < |s| ==> isSpace(s[i])
    ensures r == [] || !isSpace(r[|r| - 1])
  {
    if s == [] || !isSpace(s[|s| - 1]) then s else TrimEnd(s[..|s| - 1], isSpace)
  }

  /** What TrimEnd leaves is a prefix of its input. */
  lemma {:induction false} TrimEndIsPrefix(s: string, isSpace: char -> bool)
    ensures TrimEnd(s, isSpace) == s[..|TrimEnd(s, isSpace)|]
  {
    if s != [] && isSpace(s[|s| - 1]) {
      TrimEndIsPrefix(s[..|s| - 1], isSpace);
    }
  }

  function Trim(s: string, isSpace: char -> bool): (r: string)
    ensures |r| <= |s|
    ensures r == [] || (!isSpace(r[0]) && !isSpace(r[|r| - 1]))
  {
    TrimEndIsPrefix(TrimStart(s, isSpace), isSpace);
    TrimEnd(TrimStart(s, isSpace), isSpace)
  }

  function JsTrim(s: string): string { Trim(s, IsJsWhitespace) }

  function JavaTrim(s: string): string { Trim(s, IsJavaTrimmable) }

  /** Keycloak's Validation.isBlank: null, or empty after Java's trim. */
  predicate IsBlank(s: Option<string>)
  {
    s.None? || JavaTrim(s.value) == ""
  }

  // ---------------------------------------------------------------------
  // Splitting and joining
  // ---------------------------------------------------------------------

  function IndexOfChar(s: string, c: char): (r: int)
    ensures -1 <= r < |s|
    ensures r == -1 <==> c !in s
    ensures r >= 0 ==> s[r] == c && c !in s[..r]
  {
    if s == [] then -1
    else if s[0] == c then 0
    else
      var k := IndexOfChar(s[1..], c);
      if k < 0 then -1
      else
        assert s[..k + 1] == [s[0]] + s[1..][..k];
        k + 1
  }

  /** Array.prototype.join: the parts with `sep` between neighbours. */
  function Join(parts: seq<string>, sep: string): string
  {
    if |parts| == 0 then ""
    else if |parts| == 1 then parts[0]
    else parts[0] + sep + Join(parts[1..], sep)
  }

  /** String.prototype.split with a one-character separator. */
  function Split(s: string, sep: char): (r: seq<string>)
    ensures |r| >= 1
    ensures forall i :: 0 <= i < |r| ==> sep !in r[i]
    decreases |s|
  {
    var i := IndexOfChar(s, sep);
    if i < 0 then [s]
    else
      var rest := Split(s[i + 1..], sep);
      var r := [s[..i]] + rest;
      assert r[1..] == rest;
      r
  }

  /** Joining the pieces of a split with the separator gives the string back. */
  lemma {:induction false} SplitJoin(s: string, sep: char)
    ensures Join(Split(s, sep), [sep]) == s
    decreases |s|
  {
    var i := IndexOfChar(s, sep);
    if i >= 0 {
      var rest := Split(s[i + 1..], sep);
      SplitJoin(s[i + 1..], sep);
      JoinCons(s[..i], rest, [sep]);
      assert s == s[..i] + [sep] + s[i + 1..];
    }
  }

  lemma JoinCons(first: string, rest: seq<string>, sep: string)
    requires |rest| >= 1
    ensures Join([first] + rest, sep) == first + sep + Join(rest, sep)
  {
    assert ([first] + rest)[1..] == rest;
  }

  // ---------------------------------------------------------------------
  // Prefixes and substring search
  // ---------------------------------------------------------------------

  predicate StartsWith(s: string, prefix: string)
  {
    |prefix| <= |s| && s[..|prefix|] == prefix
  }

  predicate EndsWith(s: string, suffix: string)
  {
    |suffix| <= |s| && s[|s| - |suffix|..] == suffix
  }

  predicate OccursAt(s: string, pat: string, i: int)
  {
    0 <= i && i + |pat| <= |s| && s[i..i + |pat|] == pat
  }

  /** String.prototype.indexOf(pat, from): the first occurrence at or after `from`, or -1. */
  function IndexOfFrom(s: string, pat: string, from: nat): (r: int)
    ensures r == -1 || (from <= r && OccursAt(s, pat, r))
    ensures r == -1 ==> forall j :: from <= j ==> !OccursAt(s, pat, j)
    ensures r != -1 ==> forall j :: from <= j < r ==> !OccursAt(s, pat, j)
    decreases |s| - from
  {
    if from + |pat| > |s| then -1
    else if s[from..from + |pat|] == pat then from
    else IndexOfFrom(s, pat, from + 1)
  }

  function IndexOf(s: string, pat: string): (r: int)
    ensures r == -1 <==> forall j :: !OccursAt(s, pat, j)
    ensures r != -1 ==> OccursAt(s, pat, r) && forall j :: 0 <= j < r ==> !OccursAt(s, pat, j)
  {
    IndexOfFrom(s, pat, 0)
  }

  // ---------------------------------------------------------------------
  // Decimal rendering (Number.prototype.toString, Java string concatenation)
  // ---------------------------------------------------------------------

  function DigitChar(d: nat): (c: char)
    requires d < 10
    ensures IsDigit(c)
  {
    ('0' as int + d) as char
  }

  function NatToString(n: nat): (r: string)
    ensures |r| >= 1
    ensures forall i :: 0 <= i < |r| ==> IsDigit(r[i])
  {
    if n < 10 then [DigitChar(n)] else NatToString(n / 10) + [DigitChar(n % 10)]
  }

  function IntToString(i: int): (r: string)
    ensures |r| >= 1
  {
    if i < 0 then "-" + NatToString(-i) else NatToString(i)
  }

  // ---------------------------------------------------------------------
  // Code-unit order, the order of JavaScript's `<` on strings
  // ---------------------------------------------------------------------

  /** The UTF-16 encoding of one character: itself, or a surrogate pair above U+FFFF. */
  function CharUnits(c: char): (r: seq<int>)
    ensures |r| == if c <= '\U{FFFF}' then 1 else 2
  {
    if c <= '\U{FFFF}' then [c as int]
    else [0xD800 + (c as int - 0x10000) / 0x400, 0xDC00 + (c as int - 0x10000) % 0x400]
  }

  /** The UTF-16 code units of a text, the units JavaScript compares. */
  function Utf16Units(s: string): (r: seq<int>)
    ensures |r| == Utf16Length(s)
  {
    if s == [] then [] else CharUnits(s[0]) + Utf16Units(s[1..])
  }

  /** A first unit is a high surrogate exactly when its character lies above U+FFFF. */
  lemma FirstUnitTellsLength(c: char)
    ensures c <= '\U{FFFF}' <==> !(0xD800 <= CharUnits(c)[0] < 0xDC00)
  {
    if c > '\U{FFFF}' {
      assert c as int - 0x10000 < 0x100000;
    }
  }

  /** Two encodings that start alike start with the same character. */
  lemma CharUnitsPrefix(c: char, d: char, r: seq<int>, t: seq<int>)
    requires CharUnits(c) + r == CharUnits(d) + t
    ensures c == d && r == t
  {
    var x := CharUnits(c) + r;
    FirstUnitTellsLength(c);
    FirstUnitTellsLength(d);
    assert x[0] == CharUnits(c)[0] == CharUnits(d)[0];
    if c <= '\U{FFFF}' {
      assert c as int == d as int;
    } else {
      assert x[1] == CharUnits(c)[1] == CharUnits(d)[1];
      var p, q := c as int - 0x10000, d as int - 0x10000;
      assert p / 0x400 == q / 0x400 && p % 0x400 == q % 0x400;
      assert p == 0x400 * (p / 0x400) + p % 0x400;
      assert q == 0x400 * (q / 0x400) + q % 0x400;
    }
    assert r == x[|CharUnits(c)|..];
    assert t == x[|CharUnits(d)|..];
  }

  /** The UTF-16 encoding is injective. */
  lemma {:induction false} Utf16UnitsInjective(a: string, b: string)
    requires Utf16Units(a) == Utf16Units(b)
    ensures a == b
  {
    if a != [] && b != [] {
      CharUnitsPrefix(a[0], b[0], Utf16Units(a[1..]), Utf16Units(b[1..]));
      Utf16UnitsInjective(a[1..], b[1..]);
      assert a == [a[0]] + a[1..];
      assert b == [b[0]] + b[1..];
    }
  }

  /** Lexicographic order on unit sequences, a prefix first. */
  predicate UnitsLessEq(a: seq<int>, b: seq<int>)
  {
    if a == [] then true
    else if b == [] then false
    else if a[0] != b[0] then a[0] < b[0]
    else UnitsLessEq(a[1..], b[1..])
  }

  /** `a <= b` on JavaScript strings: lexicographic order of the UTF-16 code units. */
  predicate LessEq(a: string, b: string)
  {
    UnitsLessEq(Utf16Units(a), Utf16Units(b))
  }

  lemma {:induction false} UnitsLessEqTotal(a: seq<int>, b: seq<int>)
    ensures UnitsLessEq(a, b) || UnitsLessEq(b, a)
  {
    if a != [] && b != [] && a[0] == b[0] {
      UnitsLessEqTotal(a[1..], b[1..]);
    }
  }

  lemma {:induction false} UnitsLessEqTransitive(a: seq<int>, b: seq<int>, c: seq<int>)
    requires UnitsLessEq(a, b) && UnitsLessEq(b, c)
    ensures UnitsLessEq(a, c)
  {
    if a != [] && b != [] && c != [] && a[0] == b[0] && b[0] == c[0] {
      UnitsLessEqTransitive(a[1..], b[1..], c[1..]);
    }
  }

  lemma {:induction false} UnitsLessEqAntisymmetric(a: seq<int>, b: seq<int>)
    requires UnitsLessEq(a, b) && UnitsLessEq(b, a)
    ensures a == b
  {
    if a != [] && b != [] {
      UnitsLessEqAntisymmetric(a[1..], b[1..]);
      assert a == [a[0]] + a[1..];
      assert b == [b[0]] + b[1..];
    }
  }

  lemma LessEqTotal(a: string, b: string)
    ensures LessEq(a, b) || LessEq(b, a)
  {
    UnitsLessEqTotal(Utf16Units(a), Utf16Units(b));
  }

  lemma LessEqTransitive(a: string, b: string, c: string)
    requires LessEq(a, b) && LessEq(b, c)
    ensures LessEq(a, c)
  {
    UnitsLessEqTransitive(Utf16Units(a), Utf16Units(b), Utf16Units(c));
  }

  lemma LessEqAntisymmetric(a: string, b: string)
    requires LessEq(a, b) && LessEq(b, a)
    ensures a == b
  {
    UnitsLessEqAntisymmetric(Utf16Units(a), Utf16Units(b));
    Utf16UnitsInjective(a, b);
  }

  /**
   * Code-unit order is not code-point order: U+1F600 (high surrogate 0xD83D)
   * comes before U+FF21.
   */
  lemma SupplementarySortsBeforeHighBmp()
    ensures LessEq("\U{1F600}", "\U{FF21}") && !LessEq("\U{FF21}", "\U{1F600}")
  {
    assert Utf16Units("\U{1F600}") == [0xD83D, 0xDE00];
    assert Utf16Units("\U{FF21}") == [0xFF21];
  }
}
