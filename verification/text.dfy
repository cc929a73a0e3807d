/** Text operations of the Python runtime that the model relies on:
    `str.strip()` with no argument and `str(int)`. */
module Text {

  /** The code points for which Python's `str.isspace()` holds; `str.strip()`
      with no argument removes exactly these from both ends. */
  predicate IsSpace(c: char) {
    || c == ' '
    || ('\t' <= c <= '\r')
    || ('\U{1C}' <= c <= '\U{1F}')
    || c == '\U{85}'
    || c == '\U{A0}'
    || c == '\U{1680}'
    || ('\U{2000}' <= c <= '\U{200A}')
    || c == '\U{2028}'
    || c == '\U{2029}'
    || c == '\U{202F}'
    || c == '\U{205F}'
    || c == '\U{3000}'
  }

  predicate AllSpace(s: string) {
    forall i :: 0 <= i < |s| ==> IsSpace(s[i])
  }

  /** Neither end of `s` is whitespace. */
  predicate Trimmed(s: string) {
    |s| == 0 || (!IsSpace(s[0]) && !IsSpace(s[|s| - 1]))
  }

  /** Python's `s.strip()`: whitespace is taken off the front one character
      at a time, then off the back, until neither end is whitespace. */
  function Strip(s: string): (r: string)
    ensures Trimmed(r)
    ensures |r| <= |s|
    decreases |s|
  {
    if |s| > 0 && IsSpace(s[0]) then Strip(s[1..])
    else if |s| > 0 && IsSpace(s[|s| - 1]) then Strip(s[..|s| - 1])
    else s
  }

  /** Strip keeps the slice `s[i..j]` when everything before `i` and from
      `j` on is whitespace and the slice has no whitespace at either end. */
  lemma {:induction false} StripSlice(s: string, i: int, j: int)
    requires 0 <= i <= j <= |s|
    requires forall k :: 0 <= k < i ==> IsSpace(s[k])
    requires forall k :: j <= k < |s| ==> IsSpace(s[k])
    requires Trimmed(s[i..j])
    ensures Strip(s) == s[i..j]
    decreases |s|
  {
    if |s| > 0 && IsSpace(s[0]) {
      if i > 0 {
        assert s[1..][i - 1..j - 1] == s[i..j];
        StripSlice(s[1..], i - 1, j - 1);
      } else {
        assert s[1..][0..0] == s[0..0];
        StripSlice(s[1..], 0, 0);
      }
    } else if |s| > 0 && IsSpace(s[|s| - 1]) {
      assert s[..|s| - 1][i..j] == s[i..j];
      StripSlice(s[..|s| - 1], i, j);
    } else if |s| > 0 {
      assert s[i..j] == s;
    }
  }

  /** Strip finds the unique decomposition `pre + core + post` of its input in
      which `pre` and `post` are whitespace and `core` has no whitespace at
      either end. */
  lemma StripUnique(pre: string, core: string, post: string)
    requires AllSpace(pre) && AllSpace(post) && Trimmed(core)
    ensures Strip(pre + core + post) == core
  {
    var s := pre + core + post;
    var i, j := |pre|, |pre| + |core|;
    forall k | 0 <= k < i ensures IsSpace(s[k]) {
      assert s[k] == pre[k];
    }
    forall k | j <= k < |s| ensures IsSpace(s[k]) {
      assert s[k] == post[k - j];
    }
    assert s[i..j] == core;
    StripSlice(s, i, j);
  }

  /** A stripped line is empty exactly when the line was all whitespace. */
  lemma {:induction false} StripEmpty(s: string)
    ensures Strip(s) == [] <==> AllSpace(s)
    decreases |s|
  {
    if AllSpace(s) {
      StripUnique(s, [], []);
      assert s + [] + [] == s;
    } else if |s| > 0 && IsSpace(s[0]) {
      StripEmpty(s[1..]);
      assert !AllSpace(s[1..]) by {
        var i :| 0 <= i < |s| && !IsSpace(s[i]);
        assert s[1..][i - 1] == s[i];
      }
    } else if |s| > 0 && IsSpace(s[|s| - 1]) {
      StripEmpty(s[..|s| - 1]);
      assert !AllSpace(s[..|s| - 1]) by {
        var i :| 0 <= i < |s| && !IsSpace(s[i]);
        assert s[..|s| - 1][i] == s[i];
      }
    }
  }

  predicate IsDigit(c: char) {
    '0' <= c <= '9'
  }

  predicate AllDigits(s: string) {
    forall i :: 0 <= i < |s| ==> IsDigit(s[i])
  }

  function DigitChar(d: nat): (c: char)
    requires d < 10
    ensures IsDigit(c) && c as int - '0' as int == d
  {
    ('0' as int + d) as char
  }

  /** Python's `str(n)` for a non-negative integer: its decimal digits, with no
      leading zero except for zero itself. */
  function Decimal(n: nat): (r: string)
    ensures |r| >= 1 && AllDigits(r)
    ensures r[0] == '0' ==> n == 0 && |r| == 1
    decreases n
  {
    if n < 10 then [DigitChar(n)] else Decimal(n / 10) + [DigitChar(n % 10)]
  }

  /** The value of a string of decimal digits, read most significant first. */
  function DigitsValue(s: string): nat
    requires AllDigits(s)
  {
    if s == [] then 0
    else DigitsValue(s[..|s| - 1]) * 10 + (s[|s| - 1] as int - '0' as int)
  }

  /** Reading back the digits `Decimal` writes gives the number. */
  lemma {:induction false} DecimalRoundTrip(n: nat)
    ensures DigitsValue(Decimal(n)) == n
    decreases n
  {
    if n >= 10 {
      DecimalRoundTrip(n / 10);
      var d := Decimal(n);
      assert d[..|d| - 1] == Decimal(n / 10);
    }
  }

  /** Python's `str(i)` for any integer. */
  function IntToString(i: int): (r: string)
    ensures |r| >= 1
    ensures i >= 0 <==> IsDigit(r[0])
  {
    if i >= 0 then Decimal(i) else "-" + Decimal(-i)
  }

  /** `str(i)` reads back as `i`: the digits of a natural number, or a minus
      sign followed by the digits of its magnitude, with no leading zero
      except in "0" itself. */
  lemma IntToStringValue(i: int)
    ensures i >= 0 ==> AllDigits(IntToString(i)) && DigitsValue(IntToString(i)) == i
    ensures i < 0 ==> IntToString(i)[0] == '-' && AllDigits(IntToString(i)[1..]) && DigitsValue(IntToString(i)[1..]) == -i
    ensures i >= 0 && IntToString(i)[0] == '0' ==> IntToString(i) == "0"
    ensures i < 0 ==> |IntToString(i)| >= 2 && IntToString(i)[1] != '0'
  {
    if i >= 0 {
      DecimalRoundTrip(i);
    } else {
      DecimalRoundTrip(-i);
      assert IntToString(i)[1..] == Decimal(-i);
    }
  }
}
