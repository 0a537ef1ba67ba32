/** Python's `int(text)` in base 10, the conversion that turns the two index
    tokens of a configuration line into numbers, and its inverse `str(n)`. */
module PyInt {
  import opened Results
  import opened PyText

  predicate IsDigit(c: char) {
    '0' <= c <= '9'
  }

  /** The digit run `int()` accepts after the optional sign: ASCII digits,
      where a single underscore may stand between two digits. */
  predicate IsDigitRun(d: string) {
    && |d| > 0
    && IsDigit(d[0])
    && IsDigit(d[|d| - 1])
    && (forall k :: 0 <= k < |d| ==> IsDigit(d[k]) || d[k] == '_')
    && (forall k :: 0 <= k < |d| - 1 && d[k] == '_' ==> IsDigit(d[k + 1]))
  }

  /** The value of a digit run, read in base 10; underscores carry no value. */
  function DigitsValue(d: string): (v: nat)
    decreases |d|
  {
    if |d| == 0 then 0
    else if d[|d| - 1] == '_' then DigitsValue(d[..|d| - 1])
    else 10 * DigitsValue(d[..|d| - 1]) + (d[|d| - 1] as int - '0' as int) % 10
  }

  /** The number syntax `int()` accepts once whitespace is gone: an optional
      `+` or `-` sign and a digit run. */
  function ParseSigned(t: string): Option<int> {
    if |t| > 0 && (t[0] == '+' || t[0] == '-') then
      if IsDigitRun(t[1..]) then
        Some(if t[0] == '-' then -(DigitsValue(t[1..]) as int) else DigitsValue(t[1..]))
      else None
    else if IsDigitRun(t) then Some(DigitsValue(t))
    else None
  }

  /** The information separators U+001C to U+001F: `str.isspace()` holds
      for them, but below U+007F `int()` counts only ASCII tab, newline,
      vertical tab, form feed, carriage return and space as whitespace, so
      for `int()` they are neither whitespace nor digits. */
  predicate IsInfoSeparator(c: char) {
    '\U{1C}' <= c <= '\U{1F}'
  }

  /** The whitespace `int()` skips around a number. */
  predicate IsIntSpace(c: char) {
    IsSpace(c) && !IsInfoSeparator(c)
  }

  predicate AllIntSpace(s: string) {
    forall k :: 0 <= k < |s| ==> IsIntSpace(s[k])
  }

  /** `int(text)`: surrounding whitespace is ignored, and what is left must
      be a signed digit run; anything else is a `ValueError`, here `None`.
      An information separator can be neither in the digit run nor in the
      whitespace around it, so text holding one is always rejected. What is
      accepted is stripped text with a digit or a sign in front and only
      digits and underscores after it; a leading digit gives a
      non-negative value and a leading `-` a non-positive one. */
  function ParseInt(text: string): (r: Option<int>)
    ensures r.Some? ==> forall k :: 0 <= k < |text| ==> !IsInfoSeparator(text[k])
    ensures var t := Strip(text);
            r.Some? ==>
              && t != []
              && (IsDigit(t[0]) || t[0] in "+-")
              && (forall k :: 1 <= k < |t| ==> IsDigit(t[k]) || t[k] == '_')
              && (IsDigit(t[0]) ==> r.value >= 0)
              && (t[0] == '-' ==> r.value <= 0)
  {
    var t := Strip(text);
    if exists k :: 0 <= k < |text| && IsInfoSeparator(text[k]) then None
    else
      var r := ParseSigned(t);
      if r.Some? && (t[0] == '+' || t[0] == '-') then
        assert forall k :: 1 <= k < |t| ==> t[k] == t[1..][k - 1];
        r
      else
        r
  }

  /** The sign-and-digits syntax never accepts an information separator. */
  lemma SignedRunHasNoSeparator(t: string, i: int)
    requires 0 <= i < |t| && IsInfoSeparator(t[i])
    ensures ParseSigned(t) == None
  {
    if |t| > 0 && (t[0] == '+' || t[0] == '-') && i > 0 {
      assert t[1..][i - 1] == t[i];
    }
  }

  /** What `int()` does, from the other side: a stripped text with only
      `int()` whitespace around it reads as the sign-and-digits syntax reads
      that text alone. */
  lemma ParseIntPadded(pre: string, core: string, post: string)
    requires AllIntSpace(pre) && AllIntSpace(post) && IsStripped(core)
    ensures ParseInt(pre + core + post) == ParseSigned(core)
  {
    var text := pre + core + post;
    assert AllSpace(pre) && AllSpace(post);
    StripPadded(pre, core, post);
    if exists k :: 0 <= k < |text| && IsInfoSeparator(text[k]) {
      var k :| 0 <= k < |text| && IsInfoSeparator(text[k]);
      if |pre| <= k < |pre| + |core| {
        assert core[k - |pre|] == text[k];
        SignedRunHasNoSeparator(core, k - |pre|);
      } else if k < |pre| {
        assert text[k] == pre[k];
      }
    }
  }

  function DigitChar(v: nat): (c: char)
    requires v < 10
    ensures IsDigit(c) && (c as int - '0' as int) % 10 == v
  {
    ('0' as int + v) as char
  }

  /** The decimal digits of `n`, most significant first, without leading
      zeros. */
  function NatToDigits(n: nat): string
    decreases n
  {
    if n < 10 then [DigitChar(n)] else NatToDigits(n / 10) + [DigitChar(n % 10)]
  }

  /** The digits of `n` are a plain digit run (no underscores) whose value
      is `n`. */
  lemma {:induction false} NatToDigitsValue(n: nat)
    ensures var d := NatToDigits(n);
            && |d| > 0 && IsDigit(d[0]) && IsDigit(d[|d| - 1])
            && (forall k :: 0 <= k < |d| ==> IsDigit(d[k]))
            && IsDigitRun(d)
            && DigitsValue(d) == n
    decreases n
  {
    var d := NatToDigits(n);
    if n < 10 {
      assert d[..0] == [];
    } else {
      NatToDigitsValue(n / 10);
      assert d[..|d| - 1] == NatToDigits(n / 10);
      assert d[0] == NatToDigits(n / 10)[0];
    }
  }

  /** Python's `str(n)` for an integer. */
  function IntToString(n: int): string {
    if n < 0 then "-" + NatToDigits(-n) else NatToDigits(n)
  }

  /** The sign-and-digits syntax reads back what `str()` writes. */
  lemma ParseSignedToString(n: int)
    ensures ParseSigned(IntToString(n)) == Some(n)
  {
    var s := IntToString(n);
    var d := NatToDigits(if n < 0 then -n else n);
    NatToDigitsValue(if n < 0 then -n else n);
    if n < 0 {
      assert s[1..] == d;
    }
  }

  /** `str(n)` has no whitespace to strip. */
  lemma IntToStringStripped(n: int)
    ensures IsStripped(IntToString(n))
  {
    var s := IntToString(n);
    var d := NatToDigits(if n < 0 then -n else n);
    NatToDigitsValue(if n < 0 then -n else n);
    if n < 0 {
      assert s[|s| - 1] == d[|d| - 1];
    }
  }

  /** `int()` reads back what `str()` writes, with any whitespace `int()`
      skips around it. */
  lemma ParseIntToString(pre: string, n: int, post: string)
    requires AllIntSpace(pre) && AllIntSpace(post)
    ensures ParseInt(pre + IntToString(n) + post) == Some(n)
  {
    IntToStringStripped(n);
    ParseIntPadded(pre, IntToString(n), post);
    ParseSignedToString(n);
  }

  /** A digit run read with `int()` whitespace around it gives its value, so
      the spaces after a comma in a configuration line do no harm. */
  lemma ParseIntDigits(pre: string, d: string, post: string)
    requires AllIntSpace(pre) && AllIntSpace(post) && IsDigitRun(d)
    ensures ParseInt(pre + d + post) == Some(DigitsValue(d))
  {
    assert IsStripped(d);
    ParseIntPadded(pre, d, post);
  }
}
