/** The string operations the views and the serializer rely on: Python's
    `str.strip()`, `str.lower()` (restricted to ASCII), the ORM's `icontains` and
    `iexact` lookups, Python's ordering of strings, `str(int)` and `int(str)`. */
module Text {
  import opened Wrappers

  /** The characters for which Python's `str.isspace()` holds, which are the
      ones `str.strip()` removes. */
  predicate IsSpace(c: char) {
    c == ' ' || ('\t' <= c <= '\r') || ('\U{1c}' <= c <= '\U{1f}')
    || c == '\U{85}' || c == '\U{a0}' || c == '\U{1680}'
    || ('\U{2000}' <= c <= '\U{200a}') || c == '\U{2028}' || c == '\U{2029}'
    || c == '\U{202f}' || c == '\U{205f}' || c == '\U{3000}'
  }

  function TrimStart(s: string): (r: string)
    ensures r == [] || !IsSpace(r[0])
  {
    if s != [] && IsSpace(s[0]) then TrimStart(s[1..]) else s
  }

  function TrimEnd(s: string): (r: string)
    ensures r == [] || !IsSpace(r[|r| - 1])
    ensures |r| <= |s| && (r != [] ==> r[0] == s[0])
  {
    if s != [] && IsSpace(s[|s| - 1]) then TrimEnd(s[..|s| - 1]) else s
  }

  /** Neither starts nor ends with whitespace. */
  predicate IsTrimmed(s: string) {
    s == [] || (!IsSpace(s[0]) && !IsSpace(s[|s| - 1]))
  }

  /** Python's `s.strip()`: `s` without its leading and trailing whitespace. */
  function Strip(s: string): (r: string)
    ensures IsTrimmed(r)
  {
    TrimEnd(TrimStart(s))
  }

  /** A string that neither starts nor ends with whitespace is left alone by `strip()`. */
  lemma StripKeepsTrimmed(s: string)
    requires IsTrimmed(s)
    ensures Strip(s) == s
  {
    assert TrimStart(s) == s;
  }

  lemma StripIdempotent(s: string)
    ensures Strip(Strip(s)) == Strip(s)
  {
    StripKeepsTrimmed(Strip(s));
  }

  /** Made of whitespace only. */
  predicate AllSpace(w: string) {
    forall i :: 0 <= i < |w| ==> IsSpace(w[i])
  }

  lemma {:induction false} TrimStartBlanks(w: string, t: string)
    requires AllSpace(w) && (t == [] || !IsSpace(t[0]))
    ensures TrimStart(w + t) == t
  {
    if w == [] {
      assert w + t == t;
    } else {
      assert (w + t)[0] == w[0] && (w + t)[1..] == w[1..] + t;
      TrimStartBlanks(w[1..], t);
    }
  }

  lemma {:induction false} TrimEndBlanks(t: string, w: string)
    requires AllSpace(w) && (t == [] || !IsSpace(t[|t| - 1]))
    ensures TrimEnd(t + w) == t
  {
    if w == [] {
      assert t + w == t;
    } else {
      var init := w[..|w| - 1];
      assert (t + w)[|t + w| - 1] == w[|w| - 1] && (t + w)[..|t + w| - 1] == t + init;
      TrimEndBlanks(t, init);
    }
  }

  /** `strip()` removes exactly the surrounding whitespace: whatever blanks
      surround a trimmed string, stripping gives that string back. */
  lemma StripSurroundingBlanks(w1: string, t: string, w2: string)
    requires AllSpace(w1) && AllSpace(w2) && IsTrimmed(t)
    ensures Strip(w1 + t + w2) == t
  {
    if t == [] {
      assert w1 + t + w2 == w1 + w2 + [];
      assert AllSpace(w1 + w2);
      TrimStartBlanks(w1 + w2, []);
    } else {
      assert w1 + t + w2 == w1 + (t + w2);
      assert (t + w2)[0] == t[0];
      TrimStartBlanks(w1, t + w2);
      TrimEndBlanks(t, w2);
    }
  }

  /** `(value or "").strip()` on an optional field or parameter: a missing
      one reads as "", and a value without surrounding blanks is kept. */
  function Trimmed(field: Option<string>): (s: string)
    ensures IsTrimmed(s)
    ensures field.None? ==> s == ""
    ensures field.Some? && IsTrimmed(field.value) ==> s == field.value
  {
    if IsTrimmed(field.GetOr("")) then
      StripKeepsTrimmed(field.GetOr(""));
      Strip(field.GetOr(""))
    else Strip(field.GetOr(""))
  }

  /** A value with blanks around a trimmed core reads as that core. */
  lemma TrimmedPadded(w1: string, t: string, w2: string)
    requires AllSpace(w1) && IsTrimmed(t) && AllSpace(w2)
    ensures Trimmed(Some(w1 + t + w2)) == t
  {
    StripSurroundingBlanks(w1, t, w2);
  }

  /** `c.lower()` for ASCII letters; every other character is left as it is. */
  function LowerChar(c: char): char {
    if 'A' <= c <= 'Z' then (c as int + 32) as char else c
  }

  /** `s.lower()`, restricted to ASCII case mapping. */
  function Lower(s: string): (r: string)
    ensures |r| == |s|
  {
    if s == [] then [] else [LowerChar(s[0])] + Lower(s[1..])
  }

  lemma {:induction false} LowerAt(s: string, i: nat)
    requires i < |s|
    ensures Lower(s)[i] == LowerChar(s[i])
  {
    if i > 0 {
      LowerAt(s[1..], i - 1);
    }
  }

  lemma LowerOfExpense()
    ensures Lower("Expense") == "expense"
  {
    var l := Lower("Expense");
    assert l[0] == 'e';
  }

  /** A string without ASCII capitals is its own lower case. */
  lemma {:induction false} LowerOfLowerCase(s: string)
    requires forall i :: 0 <= i < |s| ==> !('A' <= s[i] <= 'Z')
    ensures Lower(s) == s
  {
    if s != [] {
      LowerOfLowerCase(s[1..]);
      assert s == [s[0]] + s[1..];
    }
  }

  /** Lower-casing twice is lower-casing once. */
  lemma {:induction false} LowerIdempotent(s: string)
    ensures Lower(Lower(s)) == Lower(s)
  {
    if s != [] {
      LowerIdempotent(s[1..]);
      assert Lower(s)[1..] == Lower(s[1..]);
    }
  }

  /** `needle in hay`: `needle` occurs in `hay` as a contiguous piece (`<=` on
      sequences is "is a prefix of"). */
  predicate Contains(hay: string, needle: string) {
    needle <= hay || (hay != [] && Contains(hay[1..], needle))
  }

  /** The ORM's `field__icontains=needle`. */
  predicate IContains(hay: string, needle: string) {
    Contains(Lower(hay), Lower(needle))
  }

  /** The ORM's `field__iexact=other`. */
  predicate IEquals(a: string, b: string) {
    Lower(a) == Lower(b)
  }

  /** Python's `a < b` on strings: lexicographic by code point, a proper
      prefix coming first. */
  predicate Less(a: string, b: string) {
    if a == [] then b != []
    else if b == [] then false
    else if a[0] != b[0] then a[0] < b[0]
    else Less(a[1..], b[1..])
  }

  lemma {:induction false} LessIrreflexive(a: string)
    ensures !Less(a, a)
  {
    if a != [] {
      LessIrreflexive(a[1..]);
    }
  }

  /** Any two strings are equal or ordered one way, and never both ways. */
  lemma {:induction false} LessTrichotomy(a: string, b: string)
    ensures a == b || Less(a, b) || Less(b, a)
    ensures !(Less(a, b) && Less(b, a))
  {
    if a != [] && b != [] && a[0] == b[0] {
      LessTrichotomy(a[1..], b[1..]);
      if a[1..] == b[1..] {
        assert a == [a[0]] + a[1..] && b == [b[0]] + b[1..];
      }
    }
  }

  lemma {:induction false} LessTransitive(a: string, b: string, c: string)
    requires Less(a, b) && Less(b, c)
    ensures Less(a, c)
  {
    if a != [] && a[0] == b[0] && b[0] == c[0] {
      LessTransitive(a[1..], b[1..], c[1..]);
    }
  }

  predicate IsDigit(c: char) {
    '0' <= c <= '9'
  }

  predicate AllDigits(s: string) {
    forall c :: c in s ==> IsDigit(c)
  }

  function DigitChar(d: nat): (c: char)
    requires d < 10
    ensures IsDigit(c) && c as int - '0' as int == d
  {
    (d + '0' as int) as char
  }

  /** `str(n)` for a non-negative integer: its decimal digits, no leading zero. */
  function NatToString(n: nat): (r: string)
    ensures r != [] && AllDigits(r)
  {
    if n < 10 then [DigitChar(n)] else NatToString(n / 10) + [DigitChar(n % 10)]
  }

  /** `str(i)` for any integer. */
  function IntToString(i: int): (r: string)
    ensures r != []
  {
    if i < 0 then "-" + NatToString(-i) else NatToString(i)
  }

  function DigitValue(c: char): (d: nat)
    ensures d < 10
  {
    if IsDigit(c) then c as int - '0' as int else 0
  }

  /** The value of a string of decimal digits. */
  function DigitsValue(s: string): nat {
    if s == [] then 0 else DigitsValue(s[..|s| - 1]) * 10 + DigitValue(s[|s| - 1])
  }

  /** CPython's default `sys.int_info.default_max_str_digits`: `int()` raises
      `ValueError` on a decimal string with more digits than this. */
  const MaxStrDigits: nat := 4300

  /** A digit run `int()` accepts: one or more ASCII digits, at most `MaxStrDigits`. */
  predicate IsNumeral(d: string) {
    d != [] && AllDigits(d) && |d| <= MaxStrDigits
  }

  /** Python's `int(s)` on a string: surrounding whitespace, an optional sign,
      then one or more ASCII digits, no more than `MaxStrDigits` of them;
      `None` where Python raises `ValueError`. */
  function ParseInt(s: string): Option<int> {
    ParseSigned(Strip(s))
  }

  function ParseSigned(t: string): Option<int> {
    if t != [] && t[0] == '-' then
      (if IsNumeral(t[1..]) then Some(-(DigitsValue(t[1..]) as int)) else None)
    else if t != [] && t[0] == '+' then
      (if IsNumeral(t[1..]) then Some(DigitsValue(t[1..]) as int) else None)
    else if IsNumeral(t) then Some(DigitsValue(t) as int)
    else None
  }

  /** The number of decimal digits of `str(i)`, the sign not counted. */
  function DigitCount(i: int): (k: nat)
    ensures k >= 1
  {
    |NatToString(if i < 0 then -i else i)|
  }

  function Pow10(k: nat): (p: nat)
    ensures p >= 1
  {
    if k == 0 then 1 else 10 * Pow10(k - 1)
  }

  /** A number below `10^k` (k >= 1) is written with at most `k` digits, so every
      integer of absolute value below `10^MaxStrDigits` has an accepted text. */
  lemma {:induction false} DigitCountBelow(n: nat, k: nat)
    requires 1 <= k && n < Pow10(k)
    ensures |NatToString(n)| <= k
  {
    if n >= 10 {
      assert Pow10(1) == 10;
      assert k >= 2;
      assert n / 10 < Pow10(k - 1);
      DigitCountBelow(n / 10, k - 1);
    }
  }

  /** A digit run longer than `MaxStrDigits` is refused, with or without a sign. */
  lemma ParseIntRefusesLong(d: string)
    requires AllDigits(d) && |d| > MaxStrDigits
    ensures ParseInt(d) == None && ParseInt("-" + d) == None
  {
    var s := "-" + d;
    DigitStringHasNoSpace(d);
    assert s[0] == '-' && s[1..] == d && s[|s| - 1] == d[|d| - 1];
    StripKeepsTrimmed(d);
    StripKeepsTrimmed(s);
    ParseIntOfTrimmed(d);
    ParseIntOfTrimmed(s);
  }

  lemma {:induction false} DigitsOfNat(n: nat)
    ensures DigitsValue(NatToString(n)) == n
  {
    if n >= 10 {
      DigitsOfNat(n / 10);
      var s := NatToString(n);
      assert s[..|s| - 1] == NatToString(n / 10);
    }
  }

  lemma DigitStringHasNoSpace(d: string)
    requires d != [] && AllDigits(d)
    ensures IsDigit(d[0]) && !IsSpace(d[0]) && !IsSpace(d[|d| - 1])
  {
    assert d[0] in d && d[|d| - 1] in d;
  }

  /** On a string with no surrounding whitespace, `int()` only reads the sign and digits. */
  lemma ParseIntOfTrimmed(s: string)
    requires Strip(s) == s
    ensures ParseInt(s) == ParseSigned(s)
  {
  }

  lemma ParseSignedDigits(d: string)
    requires IsNumeral(d)
    ensures ParseSigned(d) == Some(DigitsValue(d) as int)
  {
    assert d[0] in d;
  }

  lemma ParseSignedMinusDigits(d: string)
    requires IsNumeral(d)
    ensures ParseSigned("-" + d) == Some(-(DigitsValue(d) as int))
  {
    var s := "-" + d;
    assert s[0] == '-' && s[1..] == d;
  }

  lemma ParseUnsigned(d: string)
    requires IsNumeral(d)
    ensures ParseInt(d) == Some(DigitsValue(d) as int)
  {
    DigitStringHasNoSpace(d);
    StripKeepsTrimmed(d);
    ParseIntOfTrimmed(d);
    ParseSignedDigits(d);
  }

  lemma ParseMinus(d: string)
    requires IsNumeral(d)
    ensures ParseInt("-" + d) == Some(-(DigitsValue(d) as int))
  {
    var s := "-" + d;
    DigitStringHasNoSpace(d);
    assert s[0] == '-' && s[|s| - 1] == d[|d| - 1];
    StripKeepsTrimmed(s);
    ParseIntOfTrimmed(s);
    ParseSignedMinusDigits(d);
  }

  /** `int(str(i)) == i`: parsing inverts printing for every integer whose text
      `int()` accepts, i.e. of at most `MaxStrDigits` digits. */
  lemma ParseIntRoundTrip(i: int)
    requires DigitCount(i) <= MaxStrDigits
    ensures ParseInt(IntToString(i)) == Some(i)
  {
    var n: nat := if i < 0 then -i else i;
    var d := NatToString(n);
    DigitsOfNat(n);
    if i < 0 {
      ParseMinus(d);
    } else {
      ParseUnsigned(d);
    }
  }
}
