/**
 * The string operations the round filter applies to a round label: substring search,
 * splitting on a separator, stripping whitespace and reading a decimal integer.
 */
module Text {
  import opened Wrappers

  /** `sub` occurs somewhere in `s` as a contiguous run of characters. */
  predicate Contains(s: string, sub: string)
    decreases |s|
  {
    |sub| <= |s| && (s[..|sub|] == sub || Contains(s[1..], sub))
  }

  /** Position of the first occurrence of `c` in `s`, if there is one. */
  function Find(s: string, c: char): (r: Option<nat>)
    ensures r.Some? ==> r.value < |s| && s[r.value] == c && c !in s[..r.value]
    ensures r.None? <==> c !in s
    decreases |s|
  {
    if |s| == 0 then None
    else if s[0] == c then Some(0)
    else
      match Find(s[1..], c)
      case None => None
      case Some(i) =>
        assert s[..i + 1] == [s[0]] + s[1..][..i];
        Some(i + 1)
  }

  /** The parts joined back together with `sep` between consecutive ones. */
  function Join(parts: seq<string>, sep: char): string
    decreases |parts|
  {
    if |parts| == 0 then ""
    else if |parts| == 1 then parts[0]
    else parts[0] + [sep] + Join(parts[1..], sep)
  }

  /**
   * The pieces of `s` between occurrences of `sep`: "a-b" gives ["a", "b"], "" gives [""],
   * "-" gives ["", ""].
   */
  function Split(s: string, sep: char): (parts: seq<string>)
    ensures |parts| >= 1
    ensures forall i :: 0 <= i < |parts| ==> sep !in parts[i]
    ensures Join(parts, sep) == s
    decreases |s|
  {
    match Find(s, sep)
    case None => [s]
    case Some(i) =>
      var rest := Split(s[i + 1..], sep);
      assert ([s[..i]] + rest)[1..] == rest;
      assert s == s[..i] + [sep] + s[i + 1..];
      [s[..i]] + rest
  }

  /**
   * The ASCII characters Python's `str.isspace` accepts, so the ones `str.strip` removes:
   * tab, line feed, vertical tab, form feed, carriage return (9-13), the file, group, record
   * and unit separators (28-31) and the space (32).
   */
  predicate IsSpace(c: char) {
    9 <= c as int <= 13 || 28 <= c as int <= 32
  }

  predicate AllSpaces(s: string) {
    forall i :: 0 <= i < |s| ==> IsSpace(s[i])
  }

  /** The number of whitespace characters at the start of `s`. */
  function LeadingSpaces(s: string): (k: nat)
    ensures k <= |s|
    ensures AllSpaces(s[..k])
    ensures k < |s| ==> !IsSpace(s[k])
    decreases |s|
  {
    if |s| == 0 || !IsSpace(s[0]) then 0 else 1 + LeadingSpaces(s[1..])
  }

  /** The number of whitespace characters at the end of `s`. */
  function TrailingSpaces(s: string): (k: nat)
    ensures k <= |s|
    ensures AllSpaces(s[|s| - k..])
    ensures k < |s| ==> !IsSpace(s[|s| - k - 1])
    decreases |s|
  {
    if |s| == 0 || !IsSpace(s[|s| - 1]) then 0 else 1 + TrailingSpaces(s[..|s| - 1])
  }

  /** `s` without its leading and trailing whitespace. */
  function Strip(s: string): (r: string)
    ensures |r| <= |s|
    ensures |r| > 0 ==> !IsSpace(r[0]) && !IsSpace(r[|r| - 1])
  {
    var rest := s[LeadingSpaces(s)..];
    rest[..|rest| - TrailingSpaces(rest)]
  }

  /** Leading whitespace followed by a non-space is exactly that whitespace. */
  lemma {:induction false} LeadingSpacesBefore(pre: string, rest: string)
    requires AllSpaces(pre)
    requires |rest| > 0 && !IsSpace(rest[0])
    ensures LeadingSpaces(pre + rest) == |pre|
    decreases |pre|
  {
    var s := pre + rest;
    if |pre| == 0 {
      assert s == rest;
    } else {
      assert s[0] == pre[0];
      assert s[1..] == pre[1..] + rest;
      LeadingSpacesBefore(pre[1..], rest);
    }
  }

  /** Trailing whitespace preceded by a non-space is exactly that whitespace. */
  lemma {:induction false} TrailingSpacesAfter(rest: string, post: string)
    requires AllSpaces(post)
    requires |rest| > 0 && !IsSpace(rest[|rest| - 1])
    ensures TrailingSpaces(rest + post) == |post|
    decreases |post|
  {
    var s := rest + post;
    if |post| == 0 {
      assert s == rest;
    } else {
      var shorter := post[..|post| - 1];
      assert s[|s| - 1] == post[|post| - 1];
      assert s[..|s| - 1] == rest + shorter;
      TrailingSpacesAfter(rest, shorter);
    }
  }

  /** Whitespace around a body that neither starts nor ends with whitespace is exactly what `Strip` removes. */
  lemma {:induction false} StripSurrounded(pre: string, body: string, post: string)
    requires AllSpaces(pre) && AllSpaces(post)
    requires |body| > 0 && !IsSpace(body[0]) && !IsSpace(body[|body| - 1])
    ensures Strip(pre + body + post) == body
  {
    var s := pre + body + post;
    assert s == pre + (body + post);
    LeadingSpacesBefore(pre, body + post);
    var rest := s[|pre|..];
    assert rest == body + post;
    TrailingSpacesAfter(body, post);
    assert rest[..|rest| - |post|] == body;
  }

  predicate IsDigit(c: char) {
    '0' <= c <= '9'
  }

  /** A non-empty run of decimal digits. */
  predicate IsDigits(s: string) {
    |s| > 0 && forall i :: 0 <= i < |s| ==> IsDigit(s[i])
  }

  function DigitValue(c: char): (d: nat)
    requires IsDigit(c)
    ensures d < 10
  {
    (c as int) - ('0' as int)
  }

  function DigitChar(d: nat): (c: char)
    requires d < 10
    ensures IsDigit(c) && DigitValue(c) == d
  {
    ('0' as int + d) as char
  }

  /** The value of a run of decimal digits, most significant first; leading zeros allowed. */
  function DigitsValue(s: string): nat
    requires forall i :: 0 <= i < |s| ==> IsDigit(s[i])
    decreases |s|
  {
    if |s| == 0 then 0 else DigitsValue(s[..|s| - 1]) * 10 + DigitValue(s[|s| - 1])
  }

  /**
   * An integer literal as Python's `int` reads an already stripped string: an optional
   * sign followed by at least one ASCII decimal digit, and nothing else.
   */
  function ParseInt(s: string): (r: Option<int>)
    ensures r.Some? <==> IsDigits(s) || (|s| > 1 && (s[0] == '+' || s[0] == '-') && IsDigits(s[1..]))
    ensures IsDigits(s) ==> r == Some(DigitsValue(s))
    ensures |s| > 1 && s[0] == '+' && IsDigits(s[1..]) ==> r == Some(DigitsValue(s[1..]))
    ensures |s| > 1 && s[0] == '-' && IsDigits(s[1..]) ==> r == Some(-(DigitsValue(s[1..]) as int))
  {
    if |s| > 0 && (s[0] == '+' || s[0] == '-') then
      if IsDigits(s[1..]) then
        var magnitude: int := DigitsValue(s[1..]);
        Some(if s[0] == '-' then -magnitude else magnitude)
      else None
    else if IsDigits(s) then Some(DigitsValue(s))
    else None
  }

  /** The canonical decimal spelling of `n`. */
  function ShowNat(n: nat): (s: string)
    ensures IsDigits(s)
    decreases n
  {
    if n < 10 then [DigitChar(n)] else ShowNat(n / 10) + [DigitChar(n % 10)]
  }

  /** Reading back the decimal spelling of a number gives the number. */
  lemma {:induction false} ParseShowNat(n: nat)
    ensures ParseInt(ShowNat(n)) == Some(n)
    ensures DigitsValue(ShowNat(n)) == n
    decreases n
  {
    var s := ShowNat(n);
    if n >= 10 {
      ParseShowNat(n / 10);
      assert s[..|s| - 1] == ShowNat(n / 10);
    } else {
      assert s[..0] == [];
      assert DigitsValue(s) == DigitValue(s[0]) == n;
    }
  }
}
