/** The few java.lang behaviours the configuration reader and the rollover
    policies rely on: Integer.parseInt and Integer.toString in base 10,
    ASCII case mapping, String.startsWith, String.indexOf and String.split
    with a positive limit. */
module JavaLang {

  /** A Java reference that may be null. */
  datatype Option<T> = None | Some(value: T)

  const INT_MIN: int := -0x8000_0000
  const INT_MAX: int := 0x7FFF_FFFF

  /** The values a Java `int` can hold. */
  predicate IsInt32(n: int) {
    INT_MIN <= n <= INT_MAX
  }

  predicate IsDigit(c: char) {
    '0' <= c <= '9'
  }

  predicate AllDigits(s: string) {
    forall i :: 0 <= i < |s| ==> IsDigit(s[i])
  }

  function DigitValue(c: char): int
    requires IsDigit(c)
  {
    c as int - '0' as int
  }

  function DigitChar(d: int): (c: char)
    requires 0 <= d < 10
    ensures IsDigit(c) && DigitValue(c) == d
  {
    ('0' as int + d) as char
  }

  /** The number a string of decimal digits denotes, most significant first. */
  function DigitsValue(s: string): nat
    requires AllDigits(s)
  {
    if |s| == 0 then 0 else DigitsValue(s[..|s| - 1]) * 10 + DigitValue(s[|s| - 1])
  }

  /** Integer.parseInt(s) as of Java 7: an optional leading '-' or '+', at
      least one digit, nothing else, and a value that fits in 32 bits. None
      stands for the NumberFormatException. */
  function ParseInt(s: string): (r: Option<int>)
    ensures r.Some? ==> IsInt32(r.value)
  {
    var signed := |s| > 0 && (s[0] == '-' || s[0] == '+');
    var digits := if signed then s[1..] else s;
    if |digits| == 0 || !AllDigits(digits) then None
    else
      var n: int := if |s| > 0 && s[0] == '-' then -(DigitsValue(digits) as int) else DigitsValue(digits);
      if IsInt32(n) then Some(n) else None
  }

  /** Any character that is neither a digit nor a leading sign makes parseInt fail. */
  lemma ParseIntRejects(s: string, i: int)
    requires 0 <= i < |s| && !IsDigit(s[i])
    requires i > 0 || (s[i] != '-' && s[i] != '+')
    ensures ParseInt(s) == None
  {
    var signed := s[0] == '-' || s[0] == '+';
    var digits := if signed then s[1..] else s;
    var j := if signed then i - 1 else i;
    assert 0 <= j < |digits| && digits[j] == s[i];
  }

  /** The decimal digits of a natural number, without leading zeros. */
  function NatToString(n: nat): (s: string)
    ensures |s| > 0 && AllDigits(s) && DigitsValue(s) == n
    ensures n < 10 <==> |s| == 1
    ensures s[0] == '0' ==> n == 0
  {
    if n < 10 then [DigitChar(n)]
    else
      var prefix := NatToString(n / 10);
      var s := prefix + [DigitChar(n % 10)];
      assert s[..|s| - 1] == prefix;
      s
  }

  /** Integer.toString(n). */
  function IntToString(n: int): (s: string)
    ensures |s| > 0
    ensures forall i :: 0 <= i < |s| ==> IsDigit(s[i]) || (i == 0 && s[i] == '-')
  {
    if n < 0 then "-" + NatToString(-n) else NatToString(n)
  }

  /** parseInt reads back what toString writes, for every 32-bit value. */
  lemma ParseIntToString(n: int)
    requires IsInt32(n)
    ensures ParseInt(IntToString(n)) == Some(n)
  {
    var s := IntToString(n);
    if n < 0 {
      assert s[1..] == NatToString(-n);
    } else {
      assert IsDigit(s[0]);
    }
  }

  function ToLowerChar(c: char): char {
    if 'A' <= c <= 'Z' then (c as int + 32) as char else c
  }

  function ToUpperChar(c: char): char {
    if 'a' <= c <= 'z' then (c as int - 32) as char else c
  }

  /** String.toLowerCase, restricted to the ASCII letters. */
  function ToLower(s: string): string {
    if s == [] then [] else [ToLowerChar(s[0])] + ToLower(s[1..])
  }

  /** String.toUpperCase, restricted to the ASCII letters. */
  function ToUpper(s: string): string {
    if s == [] then [] else [ToUpperChar(s[0])] + ToUpper(s[1..])
  }

  /** String.equalsIgnoreCase, restricted to the ASCII letters. */
  predicate EqualsIgnoreCase(a: string, b: string) {
    ToLower(a) == ToLower(b)
  }

  lemma {:induction false} ToLowerAt(s: string, i: int)
    requires 0 <= i < |s|
    ensures |ToLower(s)| == |s| && ToLower(s)[i] == ToLowerChar(s[i])
  {
    if i > 0 {
      ToLowerAt(s[1..], i - 1);
    } else {
      ToLowerLength(s);
    }
  }

  lemma {:induction false} ToLowerLength(s: string)
    ensures |ToLower(s)| == |s|
  {
    if s != [] {
      ToLowerLength(s[1..]);
    }
  }

  predicate NoUpperCase(s: string) {
    forall i :: 0 <= i < |s| ==> !('A' <= s[i] <= 'Z')
  }

  /** A string without capitals is its own lower case. */
  lemma {:induction false} ToLowerKeepsLowerCase(s: string)
    requires NoUpperCase(s)
    ensures ToLower(s) == s
  {
    if s != [] {
      ToLowerKeepsLowerCase(s[1..]);
    }
  }

  /** Upper-casing ignores the case the string had. */
  lemma {:induction false} ToUpperIgnoresCase(s: string)
    ensures ToUpper(ToLower(s)) == ToUpper(s)
  {
    if s != [] {
      ToUpperIgnoresCase(s[1..]);
      assert ToLower(s)[1..] == ToLower(s[1..]);
    }
  }

  /** Lower-casing leaves a number's text, and so its value, alone; a string
      that lower-casing changes holds a letter and is no number. */
  lemma ParseIntIgnoresCase(s: string)
    ensures ParseInt(ToLower(s)) == ParseInt(s)
  {
    ToLowerLength(s);
    if ToLower(s) != s {
      var i :| 0 <= i < |s| && ToLower(s)[i] != s[i];
      ToLowerAt(s, i);
      ParseIntRejects(s, i);
      ParseIntRejects(ToLower(s), i);
    }
  }

  /** String.startsWith. */
  predicate StartsWith(s: string, prefix: string) {
    |prefix| <= |s| && s[..|prefix|] == prefix
  }

  /** String.indexOf(c): the first position of c, or -1. */
  function IndexOf(s: string, c: char): (r: int)
    ensures -1 <= r < |s|
    ensures r >= 0 ==> s[r] == c
    ensures forall i :: 0 <= i < |s| && (r == -1 || i < r) ==> s[i] != c
  {
    if s == [] then -1
    else if s[0] == c then 0
    else
      var k := IndexOf(s[1..], c);
      if k == -1 then -1 else k + 1
  }

  /** The parts glued back together with the separator between them. */
  function Join(parts: seq<string>, sep: char): string
    requires |parts| > 0
  {
    if |parts| == 1 then parts[0] else parts[0] + [sep] + Join(parts[1..], sep)
  }

  /** String.split(sep, limit) for a positive limit and a separator that is
      not special in a regular expression: at most limit - 1 cuts, made at
      the first separators, and trailing empty parts are kept. */
  function Split(s: string, sep: char, limit: nat): (parts: seq<string>)
    requires limit > 0
    ensures 1 <= |parts| <= limit
    decreases limit
  {
    var i := if limit == 1 then -1 else IndexOf(s, sep);
    if i == -1 then [s] else [s[..i]] + Split(s[i + 1..], sep, limit - 1)
  }

  /** The parts of a split join back to the text. */
  lemma {:induction false} SplitJoin(s: string, sep: char, limit: nat)
    requires limit > 0
    ensures Join(Split(s, sep, limit), sep) == s
    decreases limit
  {
    var i := if limit == 1 then -1 else IndexOf(s, sep);
    if i != -1 {
      var rest := Split(s[i + 1..], sep, limit - 1);
      SplitJoin(s[i + 1..], sep, limit - 1);
      JoinCons(s[..i], rest, sep);
      assert s == s[..i] + [sep] + s[i + 1..];
    }
  }

  /** No part but the last holds the separator, and the last holds none
      either unless the limit was reached. */
  lemma {:induction false} SplitNoSep(s: string, sep: char, limit: nat, k: nat)
    requires limit > 0
    requires k < |Split(s, sep, limit)| - 1 || (k == |Split(s, sep, limit)| - 1 && |Split(s, sep, limit)| < limit)
    ensures sep !in Split(s, sep, limit)[k]
    decreases limit
  {
    var i := if limit == 1 then -1 else IndexOf(s, sep);
    if i != -1 {
      var rest := Split(s[i + 1..], sep, limit - 1);
      if k > 0 {
        SplitNoSep(s[i + 1..], sep, limit - 1, k - 1);
      }
    }
  }

  lemma JoinCons(first: string, rest: seq<string>, sep: char)
    requires |rest| > 0
    ensures Join([first] + rest, sep) == first + [sep] + Join(rest, sep)
  {
    assert ([first] + rest)[1..] == rest;
  }
}
