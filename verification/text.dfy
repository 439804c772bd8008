/** String operations the source takes from its runtime: JavaScript's
    whitespace class (shared by `String.prototype.trim` and the regular
    expression class `\s`), substring tests, ASCII case mapping, decimal
    rendering of integers and the global `parseInt` with no radix argument. */
module Text {
  import opened Wrappers

  /** JavaScript's WhiteSpace and LineTerminator code points: the characters
      `trim()` removes and the regular-expression class `\s` matches. */
  predicate IsJsSpace(c: char) {
    c == '\t' || c == '\n' || c == '\U{000B}' || c == '\U{000C}' || c == '\r' || c == ' '
    || c == '\U{00A0}' || c == '\U{1680}' || ('\U{2000}' <= c <= '\U{200A}')
    || c == '\U{2028}' || c == '\U{2029}' || c == '\U{202F}' || c == '\U{205F}'
    || c == '\U{3000}' || c == '\U{FEFF}'
  }

  predicate AllSpace(s: string) {
    forall i :: 0 <= i < |s| ==> IsJsSpace(s[i])
  }

  /** `s` with its leading whitespace removed. */
  function TrimStart(s: string): (r: string)
    ensures |r| <= |s| && r == s[|s| - |r|..]
    ensures AllSpace(s[..|s| - |r|])
    ensures |r| == 0 || !IsJsSpace(r[0])
  {
    if |s| > 0 && IsJsSpace(s[0]) then TrimStart(s[1..]) else s
  }

  /** `s` with its trailing whitespace removed. */
  function TrimEnd(s: string): (r: string)
    ensures |r| <= |s| && r == s[..|r|]
    ensures AllSpace(s[|r|..])
    ensures |r| == 0 || !IsJsSpace(r[|r| - 1])
  {
    if |s| > 0 && IsJsSpace(s[|s| - 1]) then TrimEnd(s[..|s| - 1]) else s
  }

  /** `String.prototype.trim`. */
  function Trim(s: string): string {
    TrimEnd(TrimStart(s))
  }

  /** A string trims to the empty string exactly when every character of it is
      whitespace. */
  lemma TrimEmptyIffAllSpace(s: string)
    ensures Trim(s) == "" <==> AllSpace(s)
  {
    var t := TrimStart(s);
    if Trim(s) == "" {
      if |t| > 0 {
        assert false;
      }
      assert s == s[..|s| - |t|];
    } else {
      assert |t| > 0 && !IsJsSpace(t[0]);
      assert t[0] == s[|s| - |t|];
    }
  }

  predicate StartsWith(s: string, prefix: string) {
    |prefix| <= |s| && s[..|prefix|] == prefix
  }

  predicate EndsWith(s: string, suffix: string) {
    |suffix| <= |s| && s[|s| - |suffix|..] == suffix
  }

  /** Python's `t in s` and JavaScript's `s.includes(t)`, computed by scanning
      the start positions of `s` from the left. */
  predicate Contains(s: string, t: string)
    decreases |s|
  {
    StartsWith(s, t) || (|s| > 0 && Contains(s[1..], t))
  }

  /** `t` occurs in `s` at position `i`. */
  predicate OccursAt(s: string, t: string, i: int) {
    0 <= i && i + |t| <= |s| && s[i..i + |t|] == t
  }

  /** The scan agrees with the positional definition of a substring. */
  lemma {:induction false} ContainsIffOccurs(s: string, t: string)
    ensures Contains(s, t) <==> exists i :: OccursAt(s, t, i)
    decreases |s|
  {
    if StartsWith(s, t) {
      assert s[0..0 + |t|] == t;
      assert OccursAt(s, t, 0);
    } else if |s| == 0 {
    } else {
      ContainsIffOccurs(s[1..], t);
      if exists i :: OccursAt(s[1..], t, i) {
        var i :| OccursAt(s[1..], t, i);
        assert s[i + 1..i + 1 + |t|] == s[1..][i..i + |t|];
        assert OccursAt(s, t, i + 1);
      }
      if exists i :: OccursAt(s, t, i) {
        var i :| OccursAt(s, t, i);
        if i == 0 {
          assert false;
        }
        assert s[1..][i - 1..i - 1 + |t|] == s[i..i + |t|];
        assert OccursAt(s[1..], t, i - 1);
      }
    }
  }

  /** A common prefix can be cancelled. */
  lemma AppendCancel(a: string, s: string, t: string)
    ensures a + s == a + t <==> s == t
  {
    assert (a + s)[|a|..] == s;
    assert (a + t)[|a|..] == t;
  }

  /** Whatever is spliced between two strings occurs in the result. */
  lemma ContainsSplice(a: string, t: string, b: string)
    ensures Contains(a + t + b, t)
  {
    var s := a + t + b;
    assert s[|a|..|a| + |t|] == t;
    assert OccursAt(s, t, |a|);
    ContainsIffOccurs(s, t);
  }

  /** A string occurring in a part of a string occurs in the whole. */
  lemma ContainsInPart(a: string, m: string, b: string, t: string)
    requires Contains(m, t)
    ensures Contains(a + m + b, t)
  {
    ContainsIffOccurs(m, t);
    var i :| OccursAt(m, t, i);
    var s := a + m + b;
    assert s[|a| + i..|a| + i + |t|] == m[i..i + |t|];
    assert OccursAt(s, t, |a| + i);
    ContainsIffOccurs(s, t);
  }

  /** The part of `s` before its first `sep` (all of `s` if there is none):
      the first field of `s.split(sep)`. */
  function BeforeFirst(s: string, sep: char): (r: string)
    ensures |r| <= |s| && r == s[..|r|]
    ensures forall i :: 0 <= i < |r| ==> r[i] != sep
    ensures |r| < |s| ==> s[|r|] == sep
  {
    if |s| == 0 || s[0] == sep then "" else [s[0]] + BeforeFirst(s[1..], sep)
  }

  /** A text free of the separator, followed by the separator, is what the
      first field reads. */
  lemma {:induction false} BeforeFirstOfJoin(a: string, sep: char, b: string)
    requires forall i :: 0 <= i < |a| ==> a[i] != sep
    ensures BeforeFirst(a + [sep] + b, sep) == a
  {
    if |a| > 0 {
      assert (a + [sep] + b)[1..] == a[1..] + [sep] + b;
      BeforeFirstOfJoin(a[1..], sep, b);
    }
  }

  /** A text free of the separator is its own first field. */
  lemma {:induction false} BeforeFirstOfFree(a: string, sep: char)
    requires forall i :: 0 <= i < |a| ==> a[i] != sep
    ensures BeforeFirst(a, sep) == a
  {
    if |a| > 0 {
      BeforeFirstOfFree(a[1..], sep);
    }
  }

  predicate IsAsciiUpper(c: char) { 'A' <= c <= 'Z' }

  predicate IsAsciiLower(c: char) { 'a' <= c <= 'z' }

  predicate IsAsciiLetter(c: char) { IsAsciiUpper(c) || IsAsciiLower(c) }

  predicate IsAsciiDigit(c: char) { '0' <= c <= '9' }

  function ToLowerChar(c: char): (r: char)
    ensures IsAsciiUpper(c) ==> IsAsciiLower(r) && r as int - c as int == 32
    ensures !IsAsciiUpper(c) ==> r == c
  {
    if IsAsciiUpper(c) then (c as int + 32) as char else c
  }

  function ToUpperChar(c: char): (r: char)
    ensures IsAsciiLower(c) ==> IsAsciiUpper(r) && c as int - r as int == 32
    ensures !IsAsciiLower(c) ==> r == c
  {
    if IsAsciiLower(c) then (c as int - 32) as char else c
  }

  /** Lower-cases the ASCII letters of `s` and keeps every other character. */
  function ToLower(s: string): (r: string)
    ensures |r| == |s|
    ensures forall i :: 0 <= i < |s| ==> r[i] == ToLowerChar(s[i])
  {
    if |s| == 0 then "" else [ToLowerChar(s[0])] + ToLower(s[1..])
  }

  /** Upper-cases the ASCII letters of `s` and keeps every other character. */
  function ToUpper(s: string): (r: string)
    ensures |r| == |s|
    ensures forall i :: 0 <= i < |s| ==> r[i] == ToUpperChar(s[i])
  {
    if |s| == 0 then "" else [ToUpperChar(s[0])] + ToUpper(s[1..])
  }

  /** A lower-cased string has no upper-case ASCII letter, so lower-casing it
      again changes nothing. */
  lemma ToLowerIdempotent(s: string)
    ensures ToLower(ToLower(s)) == ToLower(s)
  {
  }

  lemma ToLowerAppend(a: string, b: string)
    ensures ToLower(a + b) == ToLower(a) + ToLower(b)
  {
    assert forall i :: 0 <= i < |a + b| ==> ToLower(a + b)[i] == ToLowerChar((a + b)[i]);
  }

  function DigitChar(d: nat): (c: char)
    requires d < 10
    ensures IsAsciiDigit(c)
  {
    ('0' as int + d) as char
  }

  /** The decimal rendering of a natural number, without leading zeros. */
  function NatToString(n: nat): (r: string)
    ensures |r| > 0
    ensures forall i :: 0 <= i < |r| ==> IsAsciiDigit(r[i])
    ensures r[0] == '0' ==> n == 0 && |r| == 1
  {
    if n < 10 then [DigitChar(n)] else NatToString(n / 10) + [DigitChar(n % 10)]
  }

  /** `String(n)` for an integer-valued JavaScript number. */
  function IntToString(n: int): string {
    if n < 0 then "-" + NatToString(-n) else NatToString(n)
  }

  /** The value of `c` as a digit in base `radix` (10 or 16), if it is one. */
  function DigitValue(c: char, radix: nat): (r: Option<nat>)
    ensures r.Some? ==> r.value < radix
  {
    if '0' <= c <= '9' && (c as int - '0' as int) < radix then Some(c as int - '0' as int)
    else if radix == 16 && 'a' <= c <= 'f' then Some(c as int - 'a' as int + 10)
    else if radix == 16 && 'A' <= c <= 'F' then Some(c as int - 'A' as int + 10)
    else None
  }

  /** The longest prefix of `s` made of base-`radix` digits. */
  function DigitPrefix(s: string, radix: nat): (r: string)
    ensures |r| <= |s| && r == s[..|r|]
    ensures forall i :: 0 <= i < |r| ==> DigitValue(r[i], radix).Some?
    ensures |r| < |s| ==> DigitValue(s[|r|], radix).None?
  {
    if |s| > 0 && DigitValue(s[0], radix).Some? then [s[0]] + DigitPrefix(s[1..], radix) else ""
  }

  /** The number a string of base-`radix` digits denotes, most significant
      digit first. */
  function DigitsValue(s: string, radix: nat): nat
    requires forall i :: 0 <= i < |s| ==> DigitValue(s[i], radix).Some?
  {
    if |s| == 0 then 0
    else DigitsValue(s[..|s| - 1], radix) * radix + DigitValue(s[|s| - 1], radix).value
  }

  /** JavaScript's `parseInt(s)` with no radix: leading whitespace is skipped,
      one sign is read, a `0x`/`0X` prefix switches to base 16, and the longest
      run of digits that follows is the value; `None` stands for `NaN`. */
  function ParseInt(s: string): Option<int> {
    var t := TrimStart(s);
    if |t| > 0 && t[0] == '-' then
      match ParseMagnitude(t[1..])
      case Some(v) => Some(-v)
      case None => None
    else if |t| > 0 && t[0] == '+' then ParseMagnitude(t[1..])
    else ParseMagnitude(t)
  }

  /** The unsigned part of `parseInt`: the radix prefix and the digit run. */
  function ParseMagnitude(u: string): (r: Option<int>)
    ensures r.Some? ==> r.value >= 0
  {
    if |u| >= 2 && u[0] == '0' && (u[1] == 'x' || u[1] == 'X') then DigitRun(u[2..], 16)
    else DigitRun(u, 10)
  }

  /** The value of the longest run of base-`radix` digits that starts `s`;
      `None` when `s` does not start with one. */
  function DigitRun(s: string, radix: nat): (r: Option<int>)
    ensures r.Some? ==> r.value >= 0
  {
    var digits := DigitPrefix(s, radix);
    if |digits| == 0 then None else Some(DigitsValue(digits, radix))
  }

  lemma DigitPrefixOfDigits(s: string, radix: nat)
    requires forall i :: 0 <= i < |s| ==> DigitValue(s[i], radix).Some?
    ensures DigitPrefix(s, radix) == s
  {
    if |s| > 0 {
      DigitPrefixOfDigits(s[1..], radix);
    }
  }

  lemma {:induction false} DigitsValueOfNatToString(n: nat)
    ensures forall i :: 0 <= i < |NatToString(n)| ==> DigitValue(NatToString(n)[i], 10).Some?
    ensures DigitsValue(NatToString(n), 10) == n
  {
    var s := NatToString(n);
    if n >= 10 {
      DigitsValueOfNatToString(n / 10);
      assert s[..|s| - 1] == NatToString(n / 10);
    }
  }

  lemma ParseMagnitudeOfNatToString(n: nat)
    ensures ParseMagnitude(NatToString(n)) == Some(n)
  {
    var digits := NatToString(n);
    DigitsValueOfNatToString(n);
    DigitPrefixOfDigits(digits, 10);
    assert !(|digits| >= 2 && digits[0] == '0');
  }

  /** Digits followed by a non-digit: the digit run stops where they end. */
  lemma {:induction false} DigitPrefixBeforeStop(digits: string, rest: string, radix: nat)
    requires forall i :: 0 <= i < |digits| ==> DigitValue(digits[i], radix).Some?
    requires |rest| == 0 || DigitValue(rest[0], radix).None?
    ensures DigitPrefix(digits + rest, radix) == digits
    decreases |digits|
  {
    if |digits| > 0 {
      DigitPrefixBeforeStop(digits[1..], rest, radix);
      assert (digits + rest)[1..] == digits[1..] + rest;
    } else {
      assert digits + rest == rest;
    }
  }

  lemma TrimStartUnchanged(s: string)
    requires |s| > 0 && !IsJsSpace(s[0])
    ensures TrimStart(s) == s
  {
  }

  /** `parseInt(String(n))` gives back `n` for every integer `n`. */
  lemma ParseIntOfIntToString(n: int)
    ensures ParseInt(IntToString(n)) == Some(n)
  {
    if n < 0 {
      var digits := NatToString(-n);
      var s := "-" + digits;
      TrimStartUnchanged(s);
      assert s[1..] == digits;
      ParseMagnitudeOfNatToString(-n);
    } else {
      var digits := NatToString(n);
      assert IsAsciiDigit(digits[0]);
      TrimStartUnchanged(digits);
      ParseMagnitudeOfNatToString(n);
    }
  }

  lemma ParseMagnitudeOfNatToStringThen(m: nat, rest: string)
    requires |rest| == 0 || (DigitValue(rest[0], 10).None? && rest[0] != 'x' && rest[0] != 'X')
    ensures ParseMagnitude(NatToString(m) + rest) == Some(m)
  {
    var digits := NatToString(m);
    DigitsValueOfNatToString(m);
    DigitPrefixBeforeStop(digits, rest, 10);
    var u := digits + rest;
    assert u[0] == digits[0];
    if |u| >= 2 && u[0] == '0' {
      assert |digits| == 1 && u[1] == rest[0];
    }
  }

  /** `parseInt` of a decimal rendering followed by text that starts with
      something other than a digit or `x`: the digits after the sign are read
      and the rest is ignored, as in `parseInt("5,6")`. */
  lemma ParseIntOfIntToStringThen(n: int, rest: string)
    requires |rest| == 0 || (DigitValue(rest[0], 10).None? && rest[0] != 'x' && rest[0] != 'X')
    ensures ParseInt(IntToString(n) + rest) == Some(n)
  {
    if n < 0 {
      ParseMagnitudeOfNatToStringThen(-n, rest);
      NegativeThen(IntToString(n), NatToString(-n), rest, -n);
    } else {
      NonNegativeThen(n, rest);
    }
  }

  lemma NonNegativeThen(m: nat, rest: string)
    requires |rest| == 0 || (DigitValue(rest[0], 10).None? && rest[0] != 'x' && rest[0] != 'X')
    ensures ParseInt(NatToString(m) + rest) == Some(m)
  {
    var u := NatToString(m) + rest;
    ParseMagnitudeOfNatToStringThen(m, rest);
    assert IsAsciiDigit(u[0]);
    TrimStartUnchanged(u);
  }

  /** A minus sign, then digits that read `m`, then the rest: `-m`. */
  lemma NegativeThen(head: string, digits: string, rest: string, m: nat)
    requires head == "-" + digits
    requires ParseMagnitude(digits + rest) == Some(m)
    ensures ParseInt(head + rest) == Some(-(m as int))
  {
    var u := digits + rest;
    assert head + rest == "-" + u;
    SignedParse("-" + u, u, m);
  }

  /** A minus sign before text whose unsigned part reads `m` reads `-m`. */
  lemma SignedParse(s: string, u: string, m: nat)
    requires s == "-" + u && ParseMagnitude(u) == Some(m)
    ensures ParseInt(s) == Some(-(m as int))
  {
    TrimStartUnchanged(s);
    assert s[1..] == u;
  }
}
