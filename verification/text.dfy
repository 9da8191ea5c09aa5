/** String helpers that the JavaScript and C++ sources take from their standard
    libraries: `lastIndexOf`, `includes`, `toLowerCase`, `split`, number formatting. */
module Text {

  /** Index of the last occurrence of `c` in `s`, or -1 when there is none
      (JavaScript `lastIndexOf`; C++ `find_last_of` with `npos` read as -1). */
  function LastIndexOf(s: string, c: char): (r: int)
    ensures -1 <= r < |s|
    ensures r >= 0 ==> s[r] == c
    ensures forall j :: r < j < |s| ==> s[j] != c
    decreases |s|
  {
    if |s| == 0 then -1
    else if s[|s| - 1] == c then |s| - 1
    else LastIndexOf(s[..|s| - 1], c)
  }

  /** Index of the last character of `s` that belongs to `cs`, or -1
      (C++ `find_last_of` with a character set). */
  function LastIndexOfAny(s: string, cs: set<char>): (r: int)
    ensures -1 <= r < |s|
    ensures r >= 0 ==> s[r] in cs
    ensures forall j :: r < j < |s| ==> s[j] !in cs
    decreases |s|
  {
    if |s| == 0 then -1
    else if s[|s| - 1] in cs then |s| - 1
    else LastIndexOfAny(s[..|s| - 1], cs)
  }

  /** `sub` occurs somewhere in `s` (JavaScript `includes`). */
  predicate Contains(s: string, sub: string)
    decreases |s|
  {
    (|sub| <= |s| && s[..|sub|] == sub) || (|s| > 0 && Contains(s[1..], sub))
  }

  /** `sub` occurs in `s` starting at index `i`. */
  predicate WindowAt(s: string, sub: string, i: nat)
  {
    i + |sub| <= |s| && s[i..i + |sub|] == sub
  }

  /** Every occurrence found by `Contains` is a real window of `s`. */
  lemma {:induction false} ContainsWitness(s: string, sub: string) returns (i: nat)
    requires Contains(s, sub)
    ensures WindowAt(s, sub, i)
    decreases |s|
  {
    if |sub| <= |s| && s[..|sub|] == sub {
      i := 0;
      assert s[0..0 + |sub|] == sub;
    } else {
      var j := ContainsWitness(s[1..], sub);
      i := j + 1;
      assert s[i..i + |sub|] == s[1..][j..j + |sub|];
    }
  }

  /** A window of `s` equal to `sub` makes `Contains` hold. */
  lemma {:induction false} ContainsFromWindow(s: string, sub: string, i: nat)
    requires WindowAt(s, sub, i)
    ensures Contains(s, sub)
    decreases i
  {
    if i == 0 {
      assert s[..|sub|] == s[0..0 + |sub|];
    } else {
      assert s[1..][i - 1..i - 1 + |sub|] == s[i..i + |sub|];
      ContainsFromWindow(s[1..], sub, i - 1);
    }
  }

  /** A string without the first character of `sub` does not contain `sub`. */
  lemma NoCharNoContains(s: string, sub: string)
    requires |sub| > 0
    requires forall i :: 0 <= i < |s| ==> s[i] != sub[0]
    ensures !Contains(s, sub)
  {
    if Contains(s, sub) {
      var i := ContainsWitness(s, sub);
      assert false;
    }
  }

  /** ASCII lower-casing of one character (JavaScript `toLowerCase` on ASCII). */
  function LowerChar(c: char): char
  {
    if 'A' <= c <= 'Z' then ((c as int) + 32) as char else c
  }

  function ToLower(s: string): (r: string)
    ensures |r| == |s|
    ensures forall i :: 0 <= i < |s| ==> r[i] == LowerChar(s[i])
  {
    seq(|s|, i requires 0 <= i < |s| => LowerChar(s[i]))
  }

  lemma ToLowerConcat(a: string, b: string)
    ensures ToLower(a + b) == ToLower(a) + ToLower(b)
  {
  }

  /** Lower-case letters are left alone. */
  lemma ToLowerOfLower(w: string)
    requires forall i :: 0 <= i < |w| ==> 'a' <= w[i] <= 'z'
    ensures ToLower(w) == w
  {
  }

  /** Lower-casing twice is lower-casing once. */
  lemma ToLowerIdempotent(s: string)
    ensures ToLower(ToLower(s)) == ToLower(s)
  {
  }

  /** The characters matched by the JavaScript regular-expression class `\s`. */
  predicate IsJsSpace(c: char)
  {
    c == ' ' || c == '\t' || c == '\n' || c == '\r' || c == '\U{000B}' || c == '\U{000C}'
    || c == '\U{00A0}' || c == '\U{1680}' || ('\U{2000}' <= c <= '\U{200A}')
    || c == '\U{2028}' || c == '\U{2029}' || c == '\U{202F}' || c == '\U{205F}'
    || c == '\U{3000}' || c == '\U{FEFF}'
  }

  /** The separators of the pattern `/[_\s-]/`. */
  predicate IsNameSeparator(c: char)
  {
    c == '_' || c == '-' || IsJsSpace(c)
  }

  /** `s.split(/[_\s-]/)[0]`: the longest separator-free prefix of `s`. */
  function FirstToken(s: string): (r: string)
    ensures r <= s
    ensures forall i :: 0 <= i < |r| ==> !IsNameSeparator(r[i])
    ensures |r| < |s| ==> IsNameSeparator(s[|r|])
    decreases |s|
  {
    if |s| == 0 || IsNameSeparator(s[0]) then "" else [s[0]] + FirstToken(s[1..])
  }

  /** `s.split(c).pop()`: the text after the last `c`, or all of `s` when there is none. */
  function AfterLast(s: string, c: char): (r: string)
    ensures |r| <= |s| && r == s[|s| - |r|..]
    ensures forall i :: 0 <= i < |r| ==> r[i] != c
    ensures |r| < |s| ==> s[|s| - |r| - 1] == c
  {
    s[LastIndexOf(s, c) + 1..]
  }

  /** `s.split(c)[0]`: the text before the first `c`, or all of `s` when there is none. */
  function BeforeFirst(s: string, c: char): (r: string)
    ensures r <= s
    ensures forall i :: 0 <= i < |r| ==> r[i] != c
    ensures |r| < |s| ==> s[|r|] == c
    decreases |s|
  {
    if |s| == 0 || s[0] == c then "" else [s[0]] + BeforeFirst(s[1..], c)
  }

  // ---------------------------------------------------------------------------
  // Number formatting: JavaScript `${n}` and `n.toString(16)`.

  function DigitChar(d: nat, base: nat): char
    requires 2 <= base <= 16 && d < base
  {
    if d < 10 then (('0' as int) + d) as char else (('a' as int) + d - 10) as char
  }

  /** Value of a digit character, or -1 for a character that is not a lower-case hex digit. */
  function DigitValue(c: char): int
  {
    if '0' <= c <= '9' then (c as int) - ('0' as int)
    else if 'a' <= c <= 'f' then (c as int) - ('a' as int) + 10
    else -1
  }

  /** `n` written in `base` without leading zeros, as JavaScript `toString(base)` prints it. */
  function NatToBase(n: nat, base: nat): (r: string)
    requires 2 <= base <= 16
    ensures |r| >= 1
    decreases n
  {
    if n < base then [DigitChar(n, base)]
    else NatToBase(n / base, base) + [DigitChar(n % base, base)]
  }

  /** Reading digits back: the value of a string of digits in `base`. */
  function ParseBase(s: string, base: nat): int
    requires 2 <= base <= 16
    decreases |s|
  {
    if |s| == 0 then 0
    else ParseBase(s[..|s| - 1], base) * base + DigitValue(s[|s| - 1])
  }

  function NatToString(n: nat): string
  {
    NatToBase(n, 10)
  }

  function NatToHex(n: nat): string
  {
    NatToBase(n, 16)
  }

  lemma DigitRoundTrip(d: nat, base: nat)
    requires 2 <= base <= 16 && d < base
    ensures DigitValue(DigitChar(d, base)) == d
  {
  }

  /** Printing then reading a number gives it back. */
  lemma {:induction false} NatToBaseRoundTrip(n: nat, base: nat)
    requires 2 <= base <= 16
    ensures ParseBase(NatToBase(n, base), base) == n
    decreases n
  {
    if n < base {
      DigitRoundTrip(n, base);
      ParseBaseSnoc("", DigitChar(n, base), base);
      assert "" + [DigitChar(n, base)] == NatToBase(n, base);
    } else {
      var q, d := n / base, n % base;
      DivLess(n, base);
      NatToBaseRoundTrip(q, base);
      DigitRoundTrip(d, base);
      ParseBaseSnoc(NatToBase(q, base), DigitChar(d, base), base);
      DivMod(n, base);
    }
  }

  /** Reading one more digit multiplies by the base and adds the digit. */
  lemma ParseBaseSnoc(p: string, c: char, base: nat)
    requires 2 <= base <= 16
    ensures ParseBase(p + [c], base) == ParseBase(p, base) * base + DigitValue(c)
  {
    assert (p + [c])[..|p|] == p;
  }

  lemma DivLess(n: nat, base: nat)
    requires 2 <= base <= n
    ensures n / base < n
  {
    var q := n / base;
    DivMod(n, base);
    assert q * base == q * (base - 1) + q;
    assert q * (base - 1) >= 1 by {
      assert q >= 1;
      assert base - 1 >= 1;
    }
  }

  lemma DivMod(n: nat, base: nat)
    requires base > 0
    ensures n == (n / base) * base + n % base
  {
  }

  /** Different numbers print differently: decimal suffixes `_1`, `_2`, ... never collide. */
  lemma NatToStringInjective(a: nat, b: nat)
    ensures NatToString(a) == NatToString(b) ==> a == b
  {
    NatToBaseRoundTrip(a, 10);
    NatToBaseRoundTrip(b, 10);
  }

  /** `s.padStart(width, fill)`. */
  function PadStart(s: string, width: nat, fill: char): (r: string)
    ensures |r| == if |s| >= width then |s| else width
    ensures s <= r[|r| - |s|..] && r[|r| - |s|..] == s
    ensures forall i :: 0 <= i < |r| - |s| ==> r[i] == fill
  {
    if |s| >= width then s else seq(width - |s|, _ => fill) + s
  }

  /** Leading zeros do not change the value of a digit string. */
  lemma {:induction false} ParseLeadingZeros(k: nat, s: string, base: nat)
    requires 2 <= base <= 16
    ensures ParseBase(seq(k, _ => '0') + s, base) == ParseBase(s, base)
    decreases |s|
  {
    var z := seq(k, _ => '0');
    if |s| == 0 {
      assert z + s == z;
      ParseZeros(k, base);
    } else {
      var t := z + s;
      assert t[..|t| - 1] == z + s[..|s| - 1];
      assert t[|t| - 1] == s[|s| - 1];
      ParseLeadingZeros(k, s[..|s| - 1], base);
    }
  }

  /** A run of zeros reads as zero. */
  lemma {:induction false} ParseZeros(k: nat, base: nat)
    requires 2 <= base <= 16
    ensures ParseBase(seq(k, _ => '0'), base) == 0
    decreases k
  {
    if k > 0 {
      var z := seq(k, _ => '0');
      assert z[..k - 1] == seq(k - 1, _ => '0');
      ParseZeros(k - 1, base);
    }
  }

  /** Zero-padding a hex string keeps its value. */
  lemma PaddedHexRoundTrip(n: nat, width: nat)
    ensures ParseBase(PadStart(NatToHex(n), width, '0'), 16) == n
  {
    var h := NatToHex(n);
    NatToBaseRoundTrip(n, 16);
    if |h| < width {
      assert PadStart(h, width, '0') == seq(width - |h|, _ => '0') + h;
      ParseLeadingZeros(width - |h|, h, 16);
    }
  }
}
