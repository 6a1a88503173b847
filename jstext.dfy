/** The JavaScript string and number built-ins that the pages rely on:
    `String.prototype.trim`, `String.prototype.toLowerCase`,
    `Number.prototype.toString` on non-negative integers and the global
    `parseInt` without a radix argument. Strings are sequences of Unicode
    scalar values. */
module JsText {
  import opened Seqs

  /** The WhiteSpace and LineTerminator code points of ECMAScript, the set that
      `trim` strips and `parseInt` skips. */
  predicate IsJsWhitespace(c: char)
  {
    var n := c as int;
    n == 0x09 || n == 0x0A || n == 0x0B || n == 0x0C || n == 0x0D || n == 0x20 ||
    n == 0xA0 || n == 0x1680 || (0x2000 <= n <= 0x200A) || n == 0x2028 || n == 0x2029 ||
    n == 0x202F || n == 0x205F || n == 0x3000 || n == 0xFEFF
  }

  predicate AllWhitespace(s: string)
  {
    forall i :: 0 <= i < |s| ==> IsJsWhitespace(s[i])
  }

  /** Number of whitespace characters at the start of `s`. */
  function LeadingWhitespace(s: string): (n: nat)
    ensures n <= |s|
    ensures forall i :: 0 <= i < n ==> IsJsWhitespace(s[i])
    ensures n < |s| ==> !IsJsWhitespace(s[n])
  {
    if s != [] && IsJsWhitespace(s[0]) then 1 + LeadingWhitespace(s[1..]) else 0
  }

  /** Number of whitespace characters at the end of `s`. */
  function TrailingWhitespace(s: string): (n: nat)
    ensures n <= |s|
    ensures forall i :: |s| - n <= i < |s| ==> IsJsWhitespace(s[i])
    ensures n < |s| ==> !IsJsWhitespace(s[|s| - n - 1])
  {
    if s != [] && IsJsWhitespace(s[|s| - 1]) then 1 + TrailingWhitespace(s[..|s| - 1]) else 0
  }

  /** `s` without its leading whitespace, where `parseInt` starts reading. */
  function TrimStart(s: string): string
  {
    s[LeadingWhitespace(s)..]
  }

  /** `String.prototype.trim`: the slice of `s` between its leading and its
      trailing whitespace. It is empty exactly when `s` is blank, and otherwise
      starts and ends with a non-whitespace character. */
  function Trim(s: string): (r: string)
    ensures exists i :: 0 <= i <= |s| - |r| && r == s[i..i + |r|] &&
                        AllWhitespace(s[..i]) && AllWhitespace(s[i + |r|..])
    ensures r == [] || (!IsJsWhitespace(r[0]) && !IsJsWhitespace(r[|r| - 1]))
    ensures r == [] <==> AllWhitespace(s)
  {
    var i := LeadingWhitespace(s);
    var j := |s| - TrailingWhitespace(s[i..]);
    assert s[i..][..j - i] == s[i..j];
    assert AllWhitespace(s[..i]);
    assert AllWhitespace(s[j..]) by {
      forall k | 0 <= k < |s| - j ensures IsJsWhitespace(s[j..][k]) {
        assert s[j..][k] == s[i..][k + j - i];
      }
    }
    assert i == j ==> s == s[..i] + s[j..];
    s[i..j]
  }

  /** Trimming twice is trimming once. */
  lemma TrimIdempotent(s: string)
    ensures Trim(Trim(s)) == Trim(s)
  {
    var r := Trim(s);
    if r != [] {
      assert LeadingWhitespace(r) == 0;
      assert r[0..] == r;
      assert TrailingWhitespace(r) == 0;
    }
  }

  /** The lower-case form of one character. Only the mappings that produce an
      ASCII letter are given: A-Z, U+0130 (dotted capital I, which becomes
      `i` followed by U+0307) and U+212A (Kelvin sign, which becomes `k`); every
      other character is kept. */
  function LowerChar(c: char): (r: string)
    ensures |r| >= 1
  {
    if 'A' <= c <= 'Z' then [(c as int + 32) as char]
    else if c as int == 0x130 then ['i', 0x307 as char]
    else if c as int == 0x212A then ['k']
    else [c]
  }

  /** `String.prototype.toLowerCase`, character by character. */
  function ToLowerCase(s: string): (r: string)
    ensures |r| >= |s|
    decreases |s|
  {
    if s == [] then [] else LowerChar(s[0]) + ToLowerCase(s[1..])
  }

  lemma {:induction false} ToLowerCaseAppend(a: string, b: string)
    ensures ToLowerCase(a + b) == ToLowerCase(a) + ToLowerCase(b)
    decreases |a|
  {
    if a != [] {
      assert (a + b)[0] == a[0] && (a + b)[1..] == a[1..] + b;
      ToLowerCaseAppend(a[1..], b);
      var h := LowerChar(a[0]);
      assert h + (ToLowerCase(a[1..]) + ToLowerCase(b)) == (h + ToLowerCase(a[1..])) + ToLowerCase(b);
    } else {
      assert a + b == b;
    }
  }

  /** The lower-cased text holds no ASCII capital. */
  lemma {:induction false} ToLowerCaseHasNoCapitals(s: string)
    ensures forall i :: 0 <= i < |ToLowerCase(s)| ==> !('A' <= ToLowerCase(s)[i] <= 'Z')
    decreases |s|
  {
    if s != [] {
      ToLowerCaseHasNoCapitals(s[1..]);
      var h := LowerChar(s[0]);
      assert forall k :: 0 <= k < |h| ==> !('A' <= h[k] <= 'Z');
    }
  }

  /** Lower-casing is idempotent, so text that is already lower case is unchanged. */
  lemma {:induction false} ToLowerCaseIdempotent(s: string)
    ensures ToLowerCase(ToLowerCase(s)) == ToLowerCase(s)
    decreases |s|
  {
    if s != [] {
      var h := LowerChar(s[0]);
      ToLowerCaseIdempotent(s[1..]);
      ToLowerCaseAppend(h, ToLowerCase(s[1..]));
      if |h| == 2 {
        assert h[1..][1..] == [];
        assert ToLowerCase(h) == LowerChar(h[0]) + ToLowerCase(h[1..]);
        assert ToLowerCase(h[1..]) == LowerChar(h[1]) + ToLowerCase(h[1..][1..]);
      } else {
        assert ToLowerCase(h) == LowerChar(h[0]) + ToLowerCase(h[1..]);
      }
    }
  }

  /** Digits of a number base: `0`-`9` in base 10, also `a`-`f` and `A`-`F` in base 16. */
  predicate IsDigitIn(c: char, radix: nat)
  {
    ('0' <= c <= '9') || (radix == 16 && (('a' <= c <= 'f') || ('A' <= c <= 'F')))
  }

  function DigitValue(c: char, radix: nat): (v: nat)
    requires IsDigitIn(c, radix)
    ensures v < 16 && (radix == 10 ==> v < 10)
  {
    if '0' <= c <= '9' then c as int - '0' as int
    else if 'a' <= c <= 'f' then c as int - 'a' as int + 10
    else c as int - 'A' as int + 10
  }

  /** Length of the longest prefix of `s` made of digits of `radix`. */
  function DigitRunLength(s: string, radix: nat): (n: nat)
    ensures n <= |s|
    ensures forall i :: 0 <= i < n ==> IsDigitIn(s[i], radix)
    ensures n < |s| ==> !IsDigitIn(s[n], radix)
  {
    if s != [] && IsDigitIn(s[0], radix) then 1 + DigitRunLength(s[1..], radix) else 0
  }

  /** The number written by the digit string `ds` in base `radix`. */
  function DigitsValue(ds: string, radix: nat): nat
    requires forall i :: 0 <= i < |ds| ==> IsDigitIn(ds[i], radix)
    decreases |ds|
  {
    if ds == [] then 0
    else DigitsValue(ds[..|ds| - 1], radix) * radix + DigitValue(ds[|ds| - 1], radix)
  }

  function DecimalDigit(d: nat): (c: char)
    requires d < 10
    ensures IsDigitIn(c, 10) && DigitValue(c, 10) == d
  {
    ('0' as int + d) as char
  }

  /** `n.toString()` for a non-negative integer: its decimal digits, most
      significant first, without leading zeros. */
  function NumberToString(n: nat): (r: string)
    ensures |r| >= 1
    ensures forall i :: 0 <= i < |r| ==> IsDigitIn(r[i], 10)
    ensures r[0] == '0' ==> n == 0 && |r| == 1
  {
    if n < 10 then [DecimalDigit(n)] else NumberToString(n / 10) + [DecimalDigit(n % 10)]
  }

  /** `parseInt(s)`: leading whitespace is skipped, then an optional sign, then
      an optional `0x`/`0X` prefix that switches to base 16, then the longest
      run of digits. No digit at all is `NaN`, here `None`. */
  function ParseInt(s: string): Option<int>
  {
    var t := TrimStart(s);
    var negative := t != [] && t[0] == '-';
    var unsigned := if t != [] && (t[0] == '-' || t[0] == '+') then t[1..] else t;
    var hex := |unsigned| >= 2 && unsigned[0] == '0' && (unsigned[1] == 'x' || unsigned[1] == 'X');
    var radix := if hex then 16 else 10;
    var digits := if hex then unsigned[2..] else unsigned;
    var n := DigitRunLength(digits, radix);
    if n == 0 then None
    else
      var v: int := DigitsValue(digits[..n], radix);
      Some(if negative then -v else v)
  }

  lemma {:induction false} DigitsValueOfNumberToString(n: nat)
    ensures DigitsValue(NumberToString(n), 10) == n
  {
    if n >= 10 {
      var r := NumberToString(n);
      assert r[..|r| - 1] == NumberToString(n / 10);
      DigitsValueOfNumberToString(n / 10);
    }
  }

  /** What `toString` writes, `parseInt` reads back: the stored points survive a reload. */
  lemma ParseIntOfNumberToString(n: nat)
    ensures ParseInt(NumberToString(n)) == Some(n)
  {
    var s := NumberToString(n);
    assert !IsJsWhitespace(s[0]);
    assert LeadingWhitespace(s) == 0;
    assert TrimStart(s) == s;
    assert s[0] != '-' && s[0] != '+';
    assert |s| >= 2 ==> s[1] != 'x' && s[1] != 'X';
    var n' := DigitRunLength(s, 10);
    assert n' == |s|;
    assert s[..n'] == s;
    DigitsValueOfNumberToString(n);
  }
}
