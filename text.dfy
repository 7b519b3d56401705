/** The string operations the step list relies on: ECMAScript `trim`, the
    decimal form `String(n)` of an integer, and capitalising the first
    letter of an ASCII name. */
module Text {

  /** The ECMAScript WhiteSpace and LineTerminator code points, which is
      what `String.prototype.trim` removes from both ends. */
  predicate IsJsSpace(c: char)
  {
    || c == '\t' || c == '\n' || c == '\U{000B}' || c == '\U{000C}' || c == '\r'
    || c == ' ' || c == '\U{00A0}' || c == '\U{1680}'
    || ('\U{2000}' <= c <= '\U{200A}')
    || c == '\U{2028}' || c == '\U{2029}' || c == '\U{202F}' || c == '\U{205F}'
    || c == '\U{3000}' || c == '\U{FEFF}'
  }

  /** The first position at or after `i` that does not hold white space, or
      `|s|` when there is none. */
  function SkipSpace(s: string, i: nat): (j: nat)
    requires i <= |s|
    ensures i <= j <= |s|
    ensures forall k :: i <= k < j ==> IsJsSpace(s[k])
    ensures j < |s| ==> !IsJsSpace(s[j])
    decreases |s| - i
  {
    if i < |s| && IsJsSpace(s[i]) then SkipSpace(s, i + 1) else i
  }

  /** The end of `s[lo..hi]` once its trailing white space is cut off. */
  function SkipSpaceBack(s: string, lo: nat, hi: nat): (e: nat)
    requires lo <= hi <= |s|
    ensures lo <= e <= hi
    ensures forall k :: e <= k < hi ==> IsJsSpace(s[k])
    ensures lo < e ==> !IsJsSpace(s[e - 1])
    decreases hi - lo
  {
    if lo < hi && IsJsSpace(s[hi - 1]) then SkipSpaceBack(s, lo, hi - 1) else hi
  }

  /** `s.trim()`: the slice of `s` between its leading and its trailing white
      space. It is empty exactly when `s` consists of white space only, and
      otherwise neither starts nor ends with white space. */
  function Trim(s: string): (r: string)
    ensures r == [] <==> forall k :: 0 <= k < |s| ==> IsJsSpace(s[k])
    ensures r != [] ==> !IsJsSpace(r[0]) && !IsJsSpace(r[|r| - 1])
    ensures var i := SkipSpace(s, 0);
      && i + |r| <= |s| && r == s[i..i + |r|]
      && (forall k :: 0 <= k < i ==> IsJsSpace(s[k]))
      && (forall k :: i + |r| <= k < |s| ==> IsJsSpace(s[k]))
  {
    var i := SkipSpace(s, 0);
    var e := SkipSpaceBack(s, i, |s|);
    s[i..e]
  }

  /** Trimming text that was already trimmed changes nothing, so a step whose
      instructions were set by `addInstructionsToLast` (which stores trimmed
      text) shows exactly what was stored. Imported instructions are kept
      as they are in the file and are shown trimmed. */
  lemma TrimIdempotent(s: string)
    ensures Trim(Trim(s)) == Trim(s)
  {
    var r := Trim(s);
    assert SkipSpace(r, 0) == 0;
    assert SkipSpaceBack(r, 0, |r|) == |r|;
    assert r[0..|r|] == r;
  }

  /** The character of decimal digit `d`. */
  function DigitChar(d: nat): (c: char)
    requires d < 10
    ensures '0' <= c <= '9'
  {
    ('0' as int + d) as char
  }

  /** The value of a decimal digit character. */
  function DigitValue(c: char): int
  {
    c as int - '0' as int
  }

  /** The decimal digits of `n`, most significant first, without leading
      zeros. */
  function NatDigits(n: nat): (s: string)
    ensures |s| > 0 && s[0] != '-'
    ensures n > 0 ==> s[0] != '0'
    ensures forall k :: 0 <= k < |s| ==> '0' <= s[k] <= '9'
  {
    if n < 10 then [DigitChar(n)] else NatDigits(n / 10) + [DigitChar(n % 10)]
  }

  /** `String(n)` for an integer `n`: a minus sign exactly for negative
      numbers, then the digits of its magnitude without leading zeros. */
  function DecimalString(n: int): (s: string)
    ensures |s| > 0
    ensures s[0] == '-' <==> n < 0
    ensures forall k :: 0 < k < |s| ==> '0' <= s[k] <= '9'
    ensures s[0] != '-' ==> '0' <= s[0] <= '9'
    ensures n < 0 ==> |s| > 1 && s[1] != '0'
    ensures s[0] == '0' ==> s == "0"
  {
    if n < 0 then "-" + NatDigits(-n) else NatDigits(n)
  }

  /** The value of a string of decimal digits. */
  function ParseNat(s: string): int
  {
    if s == [] then 0 else 10 * ParseNat(s[..|s| - 1]) + DigitValue(s[|s| - 1])
  }

  /** The value of an optionally signed decimal numeral. */
  function ParseDecimal(s: string): int
  {
    if s != [] && s[0] == '-' then -ParseNat(s[1..]) else ParseNat(s)
  }

  lemma {:induction false} NatDigitsRoundTrip(n: nat)
    ensures ParseNat(NatDigits(n)) == n
  {
    if n >= 10 {
      var s := NatDigits(n);
      assert s[..|s| - 1] == NatDigits(n / 10);
      NatDigitsRoundTrip(n / 10);
    }
  }

  /** The decimal form of a number reads back as that number, so two
      different numbers never print the same. */
  lemma DecimalRoundTrip(n: int)
    ensures ParseDecimal(DecimalString(n)) == n
  {
    if n < 0 {
      assert ("-" + NatDigits(-n))[1..] == NatDigits(-n);
      NatDigitsRoundTrip(-n);
    } else {
      NatDigitsRoundTrip(n);
    }
  }

  /** `c.toUpperCase()` on an ASCII letter. */
  function UpperAscii(c: char): char
  {
    if 'a' <= c <= 'z' then (c as int - 32) as char else c
  }

  /** `s.charAt(0).toUpperCase() + s.slice(1)`: the same length, the same
      characters after the first, and a first character that is not a lower
      case ASCII letter and differs from the original only if that was one. */
  function Capitalize(s: string): (r: string)
    ensures |r| == |s|
    ensures forall k :: 0 < k < |s| ==> r[k] == s[k]
    ensures r != [] ==> !('a' <= r[0] <= 'z')
    ensures r != [] && !('a' <= s[0] <= 'z') ==> r[0] == s[0]
    ensures r != [] && 'a' <= s[0] <= 'z' ==> r[0] as int == s[0] as int - 32
  {
    if s == [] then [] else [UpperAscii(s[0])] + s[1..]
  }
}
