/**
 * ASCII string helpers used by the client and the backend: case mapping,
 * whitespace trimming, prefix and substring tests, the "first non-empty
 * value wins" rule of chained `||`, and decimal rendering of numbers.
 * Only the ASCII repertoire is modelled (see README, "Left out").
 */
module Text {

  /** Whose notion of whitespace a trim uses: `String.prototype.trim` or Python's `str.strip()`. */
  datatype Language = JavaScript | Python

  /**
   * ASCII whitespace: tab, line feed, vertical tab, form feed, carriage
   * return and space; Python's `str.isspace` also counts the separators
   * 0x1C to 0x1F.
   */
  predicate IsWhitespace(lang: Language, c: char) {
    || c == ' ' || c == '\t' || c == '\n' || c == '\r' || c == '\U{B}' || c == '\U{C}'
    || (lang == Python && '\U{1C}' <= c <= '\U{1F}')
  }

  predicate IsAsciiUpper(c: char) { 'A' <= c <= 'Z' }
  predicate IsAsciiLower(c: char) { 'a' <= c <= 'z' }
  predicate IsDigit(c: char) { '0' <= c <= '9' }

  function LowerChar(c: char): (r: char)
    ensures IsAsciiUpper(c) ==> IsAsciiLower(r) && r as int == c as int + 32
    ensures !IsAsciiUpper(c) ==> r == c
  {
    if IsAsciiUpper(c) then (c as int + 32) as char else c
  }

  function UpperChar(c: char): (r: char)
    ensures IsAsciiLower(c) ==> IsAsciiUpper(r) && r as int == c as int - 32
    ensures !IsAsciiLower(c) ==> r == c
  {
    if IsAsciiLower(c) then (c as int - 32) as char else c
  }

  /** Every `from` replaced by `to`: JavaScript's `replace` with a global pattern, Python's `str.replace`. */
  function ReplaceChar(s: string, from: char, to: char): (r: string)
    ensures |r| == |s|
    ensures forall i :: 0 <= i < |s| ==> r[i] == if s[i] == from then to else s[i]
  {
    if s == [] then [] else [if s[0] == from then to else s[0]] + ReplaceChar(s[1..], from, to)
  }

  /** `toLowerCase()` / Python `lower()` restricted to ASCII. */
  function Lower(s: string): (r: string)
    ensures |r| == |s|
    ensures forall i :: 0 <= i < |s| ==> r[i] == LowerChar(s[i])
  {
    if s == [] then [] else [LowerChar(s[0])] + Lower(s[1..])
  }

  /** Text without capitals is its own lower case. */
  lemma LowerWithoutCapitals(s: string)
    requires forall i :: 0 <= i < |s| ==> !IsAsciiUpper(s[i])
    ensures Lower(s) == s
  {
  }

  lemma LowerIdempotent(s: string)
    ensures Lower(Lower(s)) == Lower(s)
  {
    var l := Lower(s);
    assert forall i :: 0 <= i < |l| ==> Lower(l)[i] == l[i];
  }

  /** Prefix test (`startsWith`). */
  predicate StartsWith(s: string, prefix: string) {
    |prefix| <= |s| && s[..|prefix|] == prefix
  }

  /** Substring test (`includes`), by scanning every start position. */
  predicate Contains(s: string, part: string)
    decreases |s|
  {
    StartsWith(s, part) || (|s| > 0 && Contains(s[1..], part))
  }

  lemma {:induction false} ContainsAt(s: string, part: string, k: nat)
    requires k + |part| <= |s| && s[k..k + |part|] == part
    ensures Contains(s, part)
    decreases k
  {
    if k > 0 {
      assert s[1..][k - 1..k - 1 + |part|] == part;
      ContainsAt(s[1..], part, k - 1);
    } else {
      assert s[..|part|] == part;
    }
  }

  lemma {:induction false} ContainsWitness(s: string, part: string) returns (k: nat)
    requires Contains(s, part)
    ensures k + |part| <= |s| && s[k..k + |part|] == part
    decreases |s|
  {
    if StartsWith(s, part) {
      k := 0;
    } else {
      var k' := ContainsWitness(s[1..], part);
      k := k' + 1;
      assert s[k..k + |part|] == s[1..][k'..k' + |part|];
    }
  }

  /** Removes leading whitespace. */
  function TrimStart(lang: Language, s: string): (r: string)
    ensures |r| <= |s| && (r != [] ==> r[|r| - 1] == s[|s| - 1])
    ensures r == [] || !IsWhitespace(lang, r[0])
    ensures forall i :: 0 <= i < |s| - |r| ==> IsWhitespace(lang, s[i])
  {
    if |s| > 0 && IsWhitespace(lang, s[0]) then TrimStart(lang, s[1..]) else s
  }

  /** Removes trailing whitespace. */
  function TrimEnd(lang: Language, s: string): (r: string)
    ensures |r| <= |s|
    ensures r == [] || !IsWhitespace(lang, r[|r| - 1])
    ensures forall i :: |r| <= i < |s| ==> IsWhitespace(lang, s[i])
  {
    if |s| > 0 && IsWhitespace(lang, s[|s| - 1]) then TrimEnd(lang, s[..|s| - 1]) else s
  }

  /** `trim()`, or Python's `strip()`: removes `lang`'s whitespace at both ends. */
  function Trim(lang: Language, s: string): (r: string)
    ensures |r| <= |s|
    ensures r == [] || (!IsWhitespace(lang, r[0]) && !IsWhitespace(lang, r[|r| - 1]))
  {
    TrimStart(lang, TrimEnd(lang, s))
  }

  predicate AllWhitespace(lang: Language, s: string) {
    forall i :: 0 <= i < |s| ==> IsWhitespace(lang, s[i])
  }

  lemma {:induction false} TrimStartPadded(lang: Language, pad: string, rest: string)
    requires AllWhitespace(lang, pad)
    requires rest == [] || !IsWhitespace(lang, rest[0])
    ensures TrimStart(lang, pad + rest) == rest
    decreases |pad|
  {
    if pad == [] {
      assert pad + rest == rest;
    } else {
      assert (pad + rest)[1..] == pad[1..] + rest;
      TrimStartPadded(lang, pad[1..], rest);
    }
  }

  lemma {:induction false} TrimEndPadded(lang: Language, rest: string, pad: string)
    requires AllWhitespace(lang, pad)
    requires rest == [] || !IsWhitespace(lang, rest[|rest| - 1])
    ensures TrimEnd(lang, rest + pad) == rest
    decreases |pad|
  {
    if pad == [] {
      assert rest + pad == rest;
    } else {
      assert (rest + pad)[..|rest + pad| - 1] == rest + pad[..|pad| - 1];
      TrimEndPadded(lang, rest, pad[..|pad| - 1]);
    }
  }

  /** Whitespace around a word is removed and the word itself is kept. */
  lemma TrimPadded(lang: Language, left: string, core: string, right: string)
    requires AllWhitespace(lang, left) && AllWhitespace(lang, right)
    requires core == [] || (!IsWhitespace(lang, core[0]) && !IsWhitespace(lang, core[|core| - 1]))
    ensures Trim(lang, left + core + right) == core
  {
    if core == [] {
      assert left + core + right == left + right;
      assert AllWhitespace(lang, left + right);
      TrimEndPadded(lang, [], left + right);
      assert [] + (left + right) == left + right;
    } else {
      assert left + core + right == (left + core) + right;
      TrimEndPadded(lang, left + core, right);
      TrimStartPadded(lang, left, core);
    }
  }

  lemma TrimIdempotent(lang: Language, s: string)
    ensures Trim(lang, Trim(lang, s)) == Trim(lang, s)
  {
    var t := Trim(lang, s);
    TrimPadded(lang, [], t, []);
    assert [] + t + [] == t;
  }

  /**
   * The two trims differ exactly on the separators 0x1C to 0x1F: Python's
   * `strip()` removes them around a word, JavaScript's `trim()` keeps them.
   */
  lemma SeparatorsStrippedOnlyByPython(c: char, core: string)
    requires '\U{1C}' <= c <= '\U{1F}'
    requires core != [] && !IsWhitespace(Python, core[0]) && !IsWhitespace(Python, core[|core| - 1])
    ensures Trim(Python, [c] + core) == core
    ensures Trim(JavaScript, [c] + core) == [c] + Trim(JavaScript, core)
  {
    TrimPadded(Python, [c], core, []);
    assert [c] + core + [] == [c] + core;
    TrimPadded(JavaScript, [], core, []);
    assert [] + core + [] == core;
    TrimEndPadded(JavaScript, [c] + core, []);
    assert [c] + core + [] == [c] + core;
  }

  /** The value of a chain `a || b || c`: the first non-empty string, or "". */
  function FirstNonEmpty(candidates: seq<string>): (r: string)
    ensures r == "" <==> forall i :: 0 <= i < |candidates| ==> candidates[i] == ""
    ensures r != "" ==> exists i :: 0 <= i < |candidates| && candidates[i] == r &&
                                   forall j :: 0 <= j < i ==> candidates[j] == ""
  {
    if candidates == [] then ""
    else if candidates[0] != "" then candidates[0]
    else
      var r := FirstNonEmpty(candidates[1..]);
      assert forall i :: 1 <= i < |candidates| ==> candidates[i] == candidates[1..][i - 1];
      r
  }

  /** The first candidate wins whenever it is non-empty, whatever follows. */
  lemma FirstNonEmptyPicksEarliest(candidates: seq<string>, k: nat)
    requires k < |candidates| && candidates[k] != ""
    requires forall j :: 0 <= j < k ==> candidates[j] == ""
    ensures FirstNonEmpty(candidates) == candidates[k]
  {
    var r := FirstNonEmpty(candidates);
    var i :| 0 <= i < |candidates| && candidates[i] == r && forall j :: 0 <= j < i ==> candidates[j] == "";
    if i < k {
    } else if i > k {
    }
  }

  function DigitChar(d: nat): (c: char)
    requires d < 10
    ensures IsDigit(c) && c as int - '0' as int == d
  {
    ('0' as int + d) as char
  }

  /** Decimal rendering of a natural number, as template literals print it. */
  function NatToString(n: nat): (r: string)
    ensures |r| > 0
    ensures forall i :: 0 <= i < |r| ==> IsDigit(r[i])
    ensures |r| > 1 ==> r[0] != '0'
  {
    if n < 10 then [DigitChar(n)] else NatToString(n / 10) + [DigitChar(n % 10)]
  }

  /** The value of a string of decimal digits. */
  function DigitsValue(s: string): (v: nat)
    requires forall i :: 0 <= i < |s| ==> IsDigit(s[i])
  {
    if s == [] then 0
    else
      assert IsDigit(s[|s| - 1]);
      DigitsValue(s[..|s| - 1]) * 10 + (s[|s| - 1] as int - '0' as int)
  }

  lemma {:induction false} DigitsValueOfNatToString(n: nat)
    ensures DigitsValue(NatToString(n)) == n
    decreases n
  {
    if n >= 10 {
      var s := NatToString(n);
      assert s[..|s| - 1] == NatToString(n / 10);
      DigitsValueOfNatToString(n / 10);
    }
  }

  /** Decimal rendering of an integer, with a leading '-' for negatives. */
  function IntToString(n: int): (r: string)
    ensures |r| > 0
    ensures n < 0 <==> r[0] == '-'
  {
    if n < 0 then "-" + NatToString(-n) else NatToString(n)
  }

  lemma NatToStringInjective(a: nat, b: nat)
    requires NatToString(a) == NatToString(b)
    ensures a == b
  {
    DigitsValueOfNatToString(a);
    DigitsValueOfNatToString(b);
  }
}
